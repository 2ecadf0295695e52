/** What the cache entry's mutators promise each other: derived data never makes a
    host look gathered, enrichers do not lose each other's work, a removed host
    leaves no trace, and a captured one can be put back
    (src/domain/cache_entry.rs:280-543). */
module EntryLaws {
  import opened Json
  import opened Datasets
  import opened Entries
  import opened Retention

  /** Nothing of the host is left. */
  predicate Forgotten(e: Entry, host: string) {
    && host !in e.dataset.hostvars && host !in e.stamps
    && forall name | name in e.dataset.groups :: host !in e.dataset.groups[name].hosts
  }

  /** The host has the same variables, stamp and groups in both. */
  ghost predicate SameHost(a: Entry, b: Entry, host: string) {
    && (host in a.dataset.hostvars <==> host in b.dataset.hostvars)
    && (host in a.dataset.hostvars ==> a.dataset.hostvars[host] == b.dataset.hostvars[host])
    && SameStamp(a, b, host)
    && forall name :: MemberOf(a.dataset.groups, name, host) <==> MemberOf(b.dataset.groups, name, host)
  }

  predicate SameStamp(a: Entry, b: Entry, host: string) {
    && (host in a.stamps <==> host in b.stamps)
    && (host in a.stamps ==> a.stamps[host] == b.stamps[host])
  }

  /** The clock can say when a host of that age was gathered. */
  predicate Representable(ageSeconds: nat, now: nat) {
    ageSeconds * TICKS <= now
  }

  /** What an entry restored with reported ages says of itself. A host reports exactly
      the age it came with, and is fresh for what is left of a TTL from there on; a
      host without an age, or with one the clock cannot represent, has none and is
      stale for every TTL. The entry is fresh for what is left of its TTL; if the
      clock cannot represent its age it is never fresh. */
  lemma RestoredEntryReportsItsAges(d: Dataset, ttlSeconds: nat, ages: Ages, now: nat, host: string, hostTtl: nat, later: nat)
    requires now <= later
    ensures var e := Restore(d, ttlSeconds, ages, now);
            && e.dataset == d
            && (if host in ages.hostAges && Representable(ages.hostAges[host], now) then
                  && HostAgeSeconds(e, host, now) == Some(ages.hostAges[host])
                  && (IsHostFresh(e, host, hostTtl, later) <==> ages.hostAges[host] * TICKS + (later - now) < hostTtl * TICKS)
                else HostAgeSeconds(e, host, later) == None && !IsHostFresh(e, host, hostTtl, later))
            && (IsFresh(e, later) <==>
                  Representable(ages.datasetAge, now) && ages.datasetAge * TICKS + (later - now) < ttlSeconds * TICKS)
  {
    if host in ages.hostAges && Representable(ages.hostAges[host], now) {
      WholeSeconds(ages.hostAges[host]);
    }
  }

  lemma WholeSeconds(seconds: nat)
    ensures seconds * TICKS / TICKS == seconds
  {
  }

  /** A merge, host by host: what came replaces what was there, the hosts to remove
      are gone from everywhere, and a host is stamped if it is new or the data was
      gathered. */
  lemma MergePatches(e: Entry, partial: Dataset, gathered: bool, now: nat, host: string)
    ensures var after := MergeInto(e, partial, gathered, now);
            if host in partial.removeHosts then Forgotten(after, host)
            else
              && (host in after.dataset.hostvars <==> host in e.dataset.hostvars || host in partial.hostvars)
              && (host in partial.hostvars ==> after.dataset.hostvars[host] == partial.hostvars[host])
              && (host in e.dataset.hostvars && host !in partial.hostvars ==>
                    after.dataset.hostvars[host] == e.dataset.hostvars[host] && SameStamp(after, e, host))
              && (host in partial.hostvars && (gathered || host !in e.stamps) ==>
                    host in after.stamps && after.stamps[host] == now)
              && (!gathered && host in e.stamps ==> SameStamp(after, e, host))
              && forall name :: MemberOf(after.dataset.groups, name, host) <==>
                   if name in partial.groups then MemberOf(partial.groups, name, host)
                   else MemberOf(e.dataset.groups, name, host)
  {
    var after := MergeInto(e, partial, gathered, now);
    assert host in partial.removeHosts <==> host in Gone(partial.removeHosts);
    forall name | name in after.dataset.groups
      ensures var was := if name in partial.groups then partial.groups[name] else e.dataset.groups[name];
              host in after.dataset.groups[name].hosts <==> host !in partial.removeHosts && host in was.hosts
    {
    }
  }

  /** What an enricher may do to an entry: a script's dataset merged, or variables of
      hosts or of groups merged key by key. */
  datatype Enrichment =
    | Script(partial: Dataset, now: nat)
    | HostFields(partial: Dataset)
    | GroupFields(partial: Dataset)

  function Enriched(e: Entry, x: Enrichment): Entry {
    match x
    case Script(partial, now) => MergeInto(e, partial, false, now)
    case HostFields(partial) => MergeHostvarFields(e, partial)
    case GroupFields(partial) => MergeGroupVarFields(e, partial)
  }

  function EnrichedAll(e: Entry, xs: seq<Enrichment>): Entry {
    if xs == [] then e else Enriched(EnrichedAll(e, xs[..|xs| - 1]), xs[|xs| - 1])
  }

  /** Data derived from the cache says nothing about when a host was gathered: however
      many enrichers of whatever kind run one after the other, a host already here and
      not removed is fresh afterwards exactly when it was before, for any TTL and at
      any time, and so is the entry. */
  lemma {:induction false} EnrichmentNeverRefreshes(e: Entry, xs: seq<Enrichment>, host: string, ttlSeconds: nat, later: nat)
    requires host in e.stamps
    requires forall i | 0 <= i < |xs| && xs[i].Script? :: host !in xs[i].partial.removeHosts
    ensures host in EnrichedAll(e, xs).stamps
    ensures IsHostFresh(EnrichedAll(e, xs), host, ttlSeconds, later) == IsHostFresh(e, host, ttlSeconds, later)
    ensures IsFresh(EnrichedAll(e, xs), later) == IsFresh(e, later)
  {
    if xs != [] {
      var before := EnrichedAll(e, xs[..|xs| - 1]);
      EnrichmentNeverRefreshes(e, xs[..|xs| - 1], host, ttlSeconds, later);
      if xs[|xs| - 1].Script? {
        MergePatches(before, xs[|xs| - 1].partial, false, xs[|xs| - 1].now, host);
      }
    }
  }

  /** Two enrichers write no common key of a host. */
  predicate ApartOnHosts(a: Dataset, b: Dataset) {
    forall h | h in a.hostvars && h in b.hostvars :: a.hostvars[h].Keys !! b.hostvars[h].Keys
  }

  /** Enrichers that write different keys do not lose each other's work, in either
      order: every key keeps what its enricher wrote, and every other key what it
      had. */
  lemma {:induction false} EnrichersKeepEachOthersKeys(e: Entry, a: Dataset, b: Dataset, host: string, key: string)
    requires ApartOnHosts(a, b) && host in e.dataset.hostvars
    ensures var after := MergeHostvarFields(MergeHostvarFields(e, a), b);
            && after == MergeHostvarFields(MergeHostvarFields(e, b), a)
            && host in after.dataset.hostvars
            && var vars := after.dataset.hostvars[host];
            if host in a.hostvars && key in a.hostvars[host] then key in vars && vars[key] == a.hostvars[host][key]
            else if host in b.hostvars && key in b.hostvars[host] then key in vars && vars[key] == b.hostvars[host][key]
            else
              && (key in vars <==> key in e.dataset.hostvars[host])
              && (key in vars ==> vars[key] == e.dataset.hostvars[host][key])
  {
    var ab := MergeHostvarFields(MergeHostvarFields(e, a), b).dataset.hostvars;
    var ba := MergeHostvarFields(MergeHostvarFields(e, b), a).dataset.hostvars;
    forall h | h in ab
      ensures h in ba && ab[h] == ba[h]
    {
      if h in a.hostvars && h in b.hostvars {
        DisjointMerges(e.dataset.hostvars[h], a.hostvars[h], b.hostvars[h]);
      }
    }
    assert ab == ba;
  }

  lemma DisjointMerges(vars: HostVars, a: HostVars, b: HostVars)
    requires a.Keys !! b.Keys
    ensures vars + a + b == vars + b + a
  {
  }

  /** Two enrichers write no common variable of a group, and leave the making of a
      group to one of them. */
  predicate ApartOnGroups(e: Entry, a: Dataset, b: Dataset) {
    forall name | name in a.groups && name in b.groups && a.groups[name].vars.Some? && b.groups[name].vars.Some? ::
      name in e.dataset.groups && a.groups[name].vars.value.Keys !! b.groups[name].vars.value.Keys
  }

  /** One group, before and after an enricher's variables. */
  function Described(group: Option<Group>, more: Option<Group>): Option<Group> {
    if more.None? || more.value.vars.None? then group
    else if group.None? then more
    else
      var g := group.value;
      Some(g.(vars := Some((if g.vars.Some? then g.vars.value else map[]) + more.value.vars.value)))
  }

  function GroupAt(groups: map<string, Group>, name: string): Option<Group> {
    if name in groups then Some(groups[name]) else None
  }

  lemma OneGroupDescribed(e: Entry, partial: Dataset, name: string)
    ensures GroupAt(MergeGroupVarFields(e, partial).dataset.groups, name)
         == Described(GroupAt(e.dataset.groups, name), GroupAt(partial.groups, name))
  {
  }

  lemma {:induction false} GroupEnrichersCommute(e: Entry, a: Dataset, b: Dataset)
    requires ApartOnGroups(e, a, b)
    ensures MergeGroupVarFields(MergeGroupVarFields(e, a), b) == MergeGroupVarFields(MergeGroupVarFields(e, b), a)
  {
    hide MergeGroupVarFields, Described;
    var ea, eb := MergeGroupVarFields(e, a), MergeGroupVarFields(e, b);
    var ab, ba := MergeGroupVarFields(ea, b), MergeGroupVarFields(eb, a);
    forall name
      ensures GroupAt(ab.dataset.groups, name) == GroupAt(ba.dataset.groups, name)
    {
      OneGroupDescribed(e, a, name);
      OneGroupDescribed(e, b, name);
      OneGroupDescribed(ea, b, name);
      OneGroupDescribed(eb, a, name);
      DescriptionsCommute(GroupAt(e.dataset.groups, name), GroupAt(a.groups, name), GroupAt(b.groups, name));
    }
    SameGroups(ab.dataset.groups, ba.dataset.groups);
    OnlyGroupsChange(e, a);
    OnlyGroupsChange(e, b);
    OnlyGroupsChange(ea, b);
    OnlyGroupsChange(eb, a);
  }

  lemma SameGroups(a: map<string, Group>, b: map<string, Group>)
    requires forall name :: GroupAt(a, name) == GroupAt(b, name)
    ensures a == b
  {
    forall name
      ensures name in a <==> name in b
      ensures name in a ==> a[name] == b[name]
    {
      assert GroupAt(a, name) == GroupAt(b, name);
    }
  }

  lemma OnlyGroupsChange(e: Entry, partial: Dataset)
    ensures var after := MergeGroupVarFields(e, partial);
            after == e.(dataset := e.dataset.(groups := after.dataset.groups))
  {
  }

  lemma DescriptionsCommute(group: Option<Group>, a: Option<Group>, b: Option<Group>)
    requires a.Some? && b.Some? && a.value.vars.Some? && b.value.vars.Some? ==>
               group.Some? && a.value.vars.value.Keys !! b.value.vars.value.Keys
    ensures Described(Described(group, a), b) == Described(Described(group, b), a)
  {
    if a.Some? && b.Some? && a.value.vars.Some? && b.value.vars.Some? {
      DisjointMerges(if group.value.vars.Some? then group.value.vars.value else map[], a.value.vars.value, b.value.vars.value);
    }
  }

  /** Enrichment describes hosts and groups, it introduces no host and moves nobody:
      only the variables of groups change, and only a group that was not here brings
      its own members. */
  lemma FieldsMoveNobody(e: Entry, partial: Dataset, name: string, host: string)
    ensures MergeHostvarFields(e, partial).dataset.hostvars.Keys == e.dataset.hostvars.Keys
    ensures MergeHostvarFields(e, partial).dataset.groups == e.dataset.groups
    ensures MergeGroupVarFields(e, partial).dataset.hostvars == e.dataset.hostvars
    ensures name in e.dataset.groups ==>
              (MemberOf(MergeGroupVarFields(e, partial).dataset.groups, name, host) <==> MemberOf(e.dataset.groups, name, host))
  {
  }

  /** A removed host is gone from everywhere, and nobody else is touched. */
  lemma RemovalForgets(e: Entry, host: string, other: string)
    ensures Forgotten(RemoveHost(e, host), host)
    ensures other != host ==> SameHost(RemoveHost(e, host), e, other)
  {
    var after := RemoveHost(e, host);
    forall name | name in e.dataset.groups
      ensures name in after.dataset.groups
      ensures forall h :: h in after.dataset.groups[name].hosts <==> h in e.dataset.groups[name].hosts && h != host
    {
    }
  }

  /** Putting a captured host back undoes its removal: the variables and the groups
      are those it had, everybody else is as before, and the stamp is the old one but
      for less than a second and the time in between. */
  lemma {:induction false} RestoreUndoesRemoval(e: Entry, host: string, capture: nat, now: nat)
    requires host in e.dataset.hostvars && host in e.stamps && e.stamps[host] <= capture <= now
    ensures CaptureHost(e, host, capture).Some?
    ensures var back := RestoreHost(RemoveHost(e, host), CaptureHost(e, host, capture).value, now);
            && back.dataset.hostvars == e.dataset.hostvars
            && (forall name, h :: MemberOf(back.dataset.groups, name, h) <==> MemberOf(e.dataset.groups, name, h))
            && (forall other | other != host :: SameStamp(back, e, other))
            && host in back.stamps
            && e.stamps[host] <= back.stamps[host] < e.stamps[host] + TICKS + (now - capture)
  {
    var removed := RemoveHost(e, host);
    var r := CaptureHost(e, host, capture).value;
    var back := RestoreHost(removed, r, now);
    assert back.dataset.hostvars == e.dataset.hostvars;
    JoinedMembers(removed.dataset.groups, host, r.groups);
    forall name, h
      ensures MemberOf(back.dataset.groups, name, h) <==> MemberOf(e.dataset.groups, name, h)
    {
      RemovalForgets(e, host, h);
      assert h != host ==> (MemberOf(removed.dataset.groups, name, h) <==> MemberOf(e.dataset.groups, name, h));
    }
    BackdatingDrift(e.stamps[host], capture, now);
  }

  /** A group's update replaces the variables of its members that came, and the
      group's own if they came; no other host and no membership changes. */
  lemma GroupUpdateTouchesMembersOnly(e: Entry, name: string, partial: Dataset, now: nat, host: string)
    ensures var after := UpdateGroup(e, name, partial, now);
            && (forall n :: MemberOf(after.dataset.groups, n, host) <==> MemberOf(e.dataset.groups, n, host))
            && if MemberOf(e.dataset.groups, name, host) && host in partial.hostvars then
                 && host in after.dataset.hostvars && after.dataset.hostvars[host] == partial.hostvars[host]
                 && host in after.stamps && after.stamps[host] == now
               else SameHost(after, e, host)
  {
  }

  /** The updated group has the variables that came for it; no other group changes. */
  lemma GroupUpdateSetsItsVars(e: Entry, name: string, partial: Dataset, now: nat, n: string)
    ensures var after := UpdateGroup(e, name, partial, now);
            && (n in after.dataset.groups <==> n in e.dataset.groups)
            && (n in e.dataset.groups ==>
                  after.dataset.groups[n] ==
                    if n == name && n in partial.groups then e.dataset.groups[n].(vars := partial.groups[n].vars)
                    else e.dataset.groups[n])
            && after.complete == e.complete && after.fetchedAt == e.fetchedAt
  {
  }

  /** Group variables merge key by key; a group that was not here is made as described,
      if it is described with variables at all. */
  lemma GroupFieldsMerge(e: Entry, partial: Dataset, name: string, key: string)
    ensures var after := MergeGroupVarFields(e, partial).dataset.groups;
            var given := name in partial.groups && partial.groups[name].vars.Some?;
            && (name in after <==> name in e.dataset.groups || given)
            && (given && key in partial.groups[name].vars.value ==>
                  after[name].vars.Some? && key in after[name].vars.value
                  && after[name].vars.value[key] == partial.groups[name].vars.value[key])
            && (name in e.dataset.groups && !(given && key in partial.groups[name].vars.value) ==>
                  var was := e.dataset.groups[name].vars;
                  && (after[name].vars.Some? && key in after[name].vars.value <==> was.Some? && key in was.value)
                  && (was.Some? && key in was.value ==> after[name].vars.value[key] == was.value[key]))
            && (name in e.dataset.groups ==>
                  after[name].hosts == e.dataset.groups[name].hosts && after[name].children == e.dataset.groups[name].children)
            && (name !in e.dataset.groups && given ==> after[name] == partial.groups[name])
  {
  }
}
