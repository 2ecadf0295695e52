/** What one sync writes into the cache, for every scope and mode
    (src/application/sync.rs:637-861), over the cache's atomic operations
    (src/ports/cache.rs:37-74). */
module SyncApply {
  import opened Json
  import opened Datasets
  import opened Sources
  import opened Entries
  import opened Retention

  datatype Scope = Full | Hosts(hosts: seq<string>) | Group(name: string)

  datatype Output = Output(dataset: Dataset, ages: Option<Ages>, unreachable: seq<string>)

  function AgeOf(out: Output, host: string): nat {
    if out.ages.Some? && host in out.ages.value.hostAges then out.ages.value.hostAges[host] else 0
  }

  /** The requested hosts the connector answered for, in request order. */
  function Answered(hosts: seq<string>, out: Output): (r: seq<string>)
    ensures forall h :: h in r <==> h in hosts && h in out.dataset.hostvars
  {
    if hosts == [] then []
    else
      var earlier := Answered(hosts[..|hosts| - 1], out);
      var h := hosts[|hosts| - 1];
      if h in out.dataset.hostvars then earlier + [h] else earlier
  }

  /** Write the variables and the age of each answered host. */
  function UpdateHosts(e: Entry, answered: seq<string>, out: Output, now: nat): Entry
    requires forall h | h in answered :: h in out.dataset.hostvars
  {
    if answered == [] then e
    else
      var h := answered[|answered| - 1];
      UpdateHostAged(UpdateHosts(e, answered[..|answered| - 1], out, now),
                     h, out.dataset.hostvars[h], AgeOf(out, h), now)
  }

  /** Move each answered host the connector places in some group. */
  function PlaceHosts(e: Entry, answered: seq<string>, out: Output): Entry {
    if answered == [] then e
    else
      var h := answered[|answered| - 1];
      var earlier := PlaceHosts(e, answered[..|answered| - 1], out);
      var groups := GroupsOf(out.dataset.groups, h);
      if groups == {} then earlier else SetHostGroups(earlier, h, groups)
  }

  /** The variables of the groups those hosts landed in, and only of those. */
  function ClaimedGroupVars(answered: seq<string>, out: Output): Dataset {
    var claimed := set name, h | h in answered && name in GroupsOf(out.dataset.groups, h) :: name;
    Dataset(map[],
            map name | name in out.dataset.groups && name in claimed && out.dataset.groups[name].vars.Some? ::
              Datasets.Group([], out.dataset.groups[name].children, out.dataset.groups[name].vars),
            [])
  }

  function ApplyHosts(prev: Option<Entry>, source: Source, hosts: seq<string>, out: Output, now: nat): Option<Entry> {
    var answered := Answered(hosts, out);
    if answered == [] then prev
    else
      match prev
      case Some(e) =>
        var placed := PlaceHosts(UpdateHosts(e, answered, out, now), answered, out);
        var described := if source.hostSyncUpdatesGroupVars
          then MergeGroupVarFields(placed, ClaimedGroupVars(answered, out)) else placed;
        Some(SetTtl(described, source.ttlSeconds))
      case None =>
        // The insert branch stamps everything "now"; the second pass puts the
        // reported ages back and says the source was not gathered whole.
        Some(MarkPartial(UpdateHosts(New(out.dataset, source.ttlSeconds, now), answered, out, now)))
  }

  function ApplyGroup(prev: Option<Entry>, source: Source, name: string, out: Output, now: nat): Option<Entry> {
    match prev
    case Some(e) => Some(SetTtl(UpdateGroup(e, name, out.dataset, now), source.ttlSeconds))
    case None => Some(MarkPartial(New(out.dataset, source.ttlSeconds, now)))
  }

  function ApplyFull(prev: Option<Entry>, source: Source, out: Output, capture: nat, now: nat): Option<Entry> {
    match source.syncMode
    case Replace =>
      if out.unreachable == [] then Some(Replacement(out.dataset, source.ttlSeconds, out.ages, now))
      else (
        match prev
        case Some(e) =>
          Some(SetTtl(ReplaceKeeping(e, out.dataset, out.unreachable, source.ttlSeconds, out.ages, capture, now),
                      source.ttlSeconds))
        case None => Some(New(out.dataset, source.ttlSeconds, now)))
    case Merge =>
      match prev
      case Some(e) => Some(SetTtl(MarkGathered(MergeInto(e, out.dataset, true, now), now), source.ttlSeconds))
      case None => Some(New(out.dataset, source.ttlSeconds, now))
  }

  /** The entry a sync leaves behind: retained hosts are captured at one reading
      of the clock, everything else is stamped at a later one. */
  function Apply(prev: Option<Entry>, source: Source, scope: Scope, out: Output, capture: nat, now: nat): Option<Entry> {
    match scope
    case Hosts(hosts) => ApplyHosts(prev, source, hosts, out, now)
    case Group(name) => ApplyGroup(prev, source, name, out, now)
    case Full => ApplyFull(prev, source, out, capture, now)
  }

  // ----- host scope -----

  lemma {:induction false} UpdatedHosts(e: Entry, answered: seq<string>, out: Output, now: nat)
    requires forall h | h in answered :: h in out.dataset.hostvars
    ensures
      var after := UpdateHosts(e, answered, out, now);
      && after.dataset.groups == e.dataset.groups
      && after.dataset.hostvars.Keys == e.dataset.hostvars.Keys + (set h | h in answered)
      && after.stamps.Keys == e.stamps.Keys + (set h | h in answered)
      && (forall h | h in after.dataset.hostvars :: after.dataset.hostvars[h]
            == if h in answered then out.dataset.hostvars[h] else e.dataset.hostvars[h])
      && (forall h | h in after.stamps :: after.stamps[h]
            == if h in answered then Backdated(now, AgeOf(out, h)) else e.stamps[h])
  {
    if answered != [] {
      var n := |answered| - 1;
      assert answered == answered[..n] + [answered[n]];
      UpdatedHosts(e, answered[..n], out, now);
    }
  }

  lemma SetHostGroupsMoves(e: Entry, host: string, groups: set<string>)
    ensures
      var after := SetHostGroups(e, host, groups);
      && after.dataset.hostvars == e.dataset.hostvars && after.stamps == e.stamps
      && forall name, h :: MemberOf(after.dataset.groups, name, h) <==>
           if h == host && name != "all" && name != "ungrouped" then name in groups else MemberOf(e.dataset.groups, name, h)
  {
    var left := map name | name in e.dataset.groups ::
      var g := e.dataset.groups[name];
      if IsMetaGroup(name) || name in groups then g else g.(hosts := Without(g.hosts, host));
    var stated := set g | g in groups && !IsMetaGroup(g);
    JoinedMembers(left, host, stated);
    assert SetHostGroups(e, host, groups).dataset.groups == Joined(left, host, stated);
    forall name, h
      ensures MemberOf(left, name, h) <==>
        MemberOf(e.dataset.groups, name, h) && (IsMetaGroup(name) || name in groups || h != host)
    {
    }
  }

  predicate Placed(answered: seq<string>, out: Output, host: string) {
    host in answered && GroupsOf(out.dataset.groups, host) != {}
  }

  lemma {:induction false} PlacedHosts(e: Entry, answered: seq<string>, out: Output)
    ensures
      var after := PlaceHosts(e, answered, out);
      && after.dataset.hostvars == e.dataset.hostvars && after.stamps == e.stamps
      && forall name, h :: MemberOf(after.dataset.groups, name, h) <==>
           if Placed(answered, out, h) && !IsMetaGroup(name) then MemberOf(out.dataset.groups, name, h)
           else MemberOf(e.dataset.groups, name, h)
  {
    if answered != [] {
      var n := |answered| - 1;
      var host := answered[n];
      assert answered == answered[..n] + [host];
      PlacedHosts(e, answered[..n], out);
      var groups := GroupsOf(out.dataset.groups, host);
      var earlier := PlaceHosts(e, answered[..n], out);
      SetHostGroupsMoves(earlier, host, groups);
      assert forall name :: name in groups <==> MemberOf(out.dataset.groups, name, host);
    }
  }

  lemma GroupVarsMoveNobody(e: Entry, answered: seq<string>, out: Output)
    ensures
      var after := MergeGroupVarFields(e, ClaimedGroupVars(answered, out));
      && after.dataset.hostvars == e.dataset.hostvars && after.stamps == e.stamps
      && forall name, h :: MemberOf(after.dataset.groups, name, h) <==> MemberOf(e.dataset.groups, name, h)
  {
  }

  /** A host-scoped sync of a source already cached writes exactly the requested
      hosts the connector answered for: their variables, their stamps, and, for
      those it places in some group, their memberships outside the implicit
      groups. Every other host keeps its variables, stamp and groups, and no host
      is lost. */
  lemma {:induction false} HostScopeTouchesOnlyAnswered(e: Entry, source: Source, hosts: seq<string>, out: Output, now: nat)
    ensures
      var answered := Answered(hosts, out);
      var after := ApplyHosts(Some(e), source, hosts, out, now).value;
      && after.dataset.hostvars.Keys == e.dataset.hostvars.Keys + (set h | h in answered)
      && after.stamps.Keys == e.stamps.Keys + (set h | h in answered)
      && (forall h | h in after.dataset.hostvars :: after.dataset.hostvars[h]
            == if h in answered then out.dataset.hostvars[h] else e.dataset.hostvars[h])
      && (forall h | h in after.stamps :: after.stamps[h]
            == if h in answered then Backdated(now, AgeOf(out, h)) else e.stamps[h])
      && (forall name, h :: MemberOf(after.dataset.groups, name, h) <==>
           if Placed(answered, out, h) && !IsMetaGroup(name) then MemberOf(out.dataset.groups, name, h)
           else MemberOf(e.dataset.groups, name, h))
  {
    var answered := Answered(hosts, out);
    if answered != [] {
      var updated := UpdateHosts(e, answered, out, now);
      UpdatedHosts(e, answered, out, now);
      PlacedHosts(updated, answered, out);
      GroupVarsMoveNobody(PlaceHosts(updated, answered, out), answered, out);
    }
  }

  // ----- every scope -----

  /** The hosts an entry held whose record is gone from the next one. */
  function Lost(prev: Option<Entry>, next: Option<Entry>): set<string> {
    match prev
    case None => {}
    case Some(e) => set h | h in e.stamps && (next.None? || h !in next.value.stamps)
  }

  /** No record's gathering time moves back, and none is in the future. */
  ghost predicate StampsAdvance(prev: Option<Entry>, next: Option<Entry>, now: nat) {
    && (next.Some? ==> StampedBy(next.value, now))
    && (prev.Some? && next.Some? ==>
          forall h | h in prev.value.stamps && h in next.value.stamps ::
            prev.value.stamps[h] <= next.value.stamps[h])
  }

  lemma ReplaceAdvances(e: Entry, gathered: Dataset, unreachable: seq<string>, ttlSeconds: nat, capture: nat, now: nat)
    requires StampedBy(e, capture) && capture <= now
    ensures StampsAdvance(Some(e), Some(ReplaceKeeping(e, gathered, unreachable, ttlSeconds, None, capture, now)), now)
  {
    ReplacementHolds(e, gathered, unreachable, ttlSeconds, None, capture, now);
    forall h | h in e.stamps
      ensures e.stamps[h] <= Backdated(now, AgeAt(e, h, capture)) <= now
    {
      BackdatingDrift(e.stamps[h], capture, now);
    }
  }

  ghost predicate LocalAdvance(prev: Option<Entry>, next: Option<Entry>, now: nat) {
    && StampsAdvance(prev, next, now)
    && ((prev.Some? ==> KeysAgree(prev.value)) && next.Some? ==> KeysAgree(next.value))
  }

  lemma HostsAdvance(prev: Option<Entry>, source: Source, hosts: seq<string>, out: Output, now: nat)
    requires out.ages.None?
    requires prev.Some? ==> StampedBy(prev.value, now)
    ensures
      var next := ApplyHosts(prev, source, hosts, out, now);
      && LocalAdvance(prev, next, now)
      && Lost(prev, next) == {}
      && forall h | h in hosts && h in out.dataset.hostvars ::
           next.Some? && h in next.value.stamps && next.value.stamps[h] == now
  {
    var answered := Answered(hosts, out);
    if prev.Some? {
      HostScopeTouchesOnlyAnswered(prev.value, source, hosts, out, now);
    } else if answered != [] {
      UpdatedHosts(New(out.dataset, source.ttlSeconds, now), answered, out, now);
    }
  }

  lemma GroupAdvances(prev: Option<Entry>, source: Source, name: string, out: Output, now: nat)
    requires prev.Some? ==> StampedBy(prev.value, now)
    ensures LocalAdvance(prev, ApplyGroup(prev, source, name, out, now), now)
    ensures Lost(prev, ApplyGroup(prev, source, name, out, now)) == {}
  {
  }

  lemma FullAdvances(prev: Option<Entry>, source: Source, out: Output, capture: nat, now: nat)
    requires out.ages.None?
    requires capture <= now
    requires prev.Some? ==> StampedBy(prev.value, capture)
    ensures LocalAdvance(prev, ApplyFull(prev, source, out, capture, now), now)
  {
    if prev.Some? && source.syncMode == Replace && out.unreachable != [] {
      ReplaceAdvances(prev.value, out.dataset, out.unreachable, source.ttlSeconds, capture, now);
      RetentionKeepsWholeHosts(prev.value, out.dataset, out.unreachable, source.ttlSeconds, None, capture, now);
    }
  }

  /** A sync of a source that reports no ages only moves gathering times forward;
      every host keeps exactly one record, so a record disappears only with its
      host; a sync of named hosts or of a group loses nobody; and one of named
      hosts stamps those it was answered for "now". */
  lemma LocalSyncAdvances(prev: Option<Entry>, source: Source, scope: Scope, out: Output, capture: nat, now: nat)
    requires out.ages.None?
    requires capture <= now
    requires prev.Some? ==> StampedBy(prev.value, capture)
    ensures
      var next := Apply(prev, source, scope, out, capture, now);
      && LocalAdvance(prev, next, now)
      && (!scope.Full? ==> Lost(prev, next) == {})
      && (scope.Hosts? ==> forall h | h in scope.hosts && h in out.dataset.hostvars ::
            next.Some? && h in next.value.stamps && next.value.stamps[h] == now)
  {
    match scope
    case Hosts(hosts) => HostsAdvance(prev, source, hosts, out, now);
    case Group(name) => GroupAdvances(prev, source, name, out, now);
    case Full => FullAdvances(prev, source, out, capture, now);
  }
}
