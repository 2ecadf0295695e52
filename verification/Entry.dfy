/** What the cache holds for one source, as a value: the dataset, and when each
    host of it was gathered (src/domain/cache_entry.rs). The clock is a count of
    nanoseconds, so the truncation of an age to whole seconds is visible. */
module Entries {
  import opened Json
  import opened Datasets

  const TICKS: nat := 1_000_000_000

  datatype Entry = Entry(
    dataset: Dataset,
    fetchedAt: nat,
    ttl: nat,
    stamps: map<string, nat>,
    complete: bool)

  /** A host's whole state, captured to be put back. */
  datatype Retained = Retained(hostname: string, vars: HostVars, ageSeconds: nat, groups: set<string>)

  /** Ages a federated origin reports: its dataset's and its hosts', in seconds. */
  datatype Ages = Ages(datasetAge: nat, hostAges: map<string, nat>)

  function Elapsed(now: nat, since: nat): nat {
    if since <= now then now - since else 0
  }

  /** The instant so many seconds before `now`, if the clock can represent it. */
  function CheckedSub(now: nat, seconds: nat): Option<nat> {
    if seconds * TICKS <= now then Some(now - seconds * TICKS) else None
  }

  /** The instant a host of that age is stamped with. */
  function Backdated(now: nat, ageSeconds: nat): nat {
    match CheckedSub(now, ageSeconds)
    case Some(instant) => instant
    case None => now
  }

  function New(d: Dataset, ttlSeconds: nat, now: nat): Entry {
    Entry(d, now, ttlSeconds * TICKS, map h | h in d.hostvars :: now, true)
  }

  function Restore(d: Dataset, ttlSeconds: nat, ages: Ages, now: nat): Entry {
    var stamps := map h | h in ages.hostAges && CheckedSub(now, ages.hostAges[h]).Some?
      :: CheckedSub(now, ages.hostAges[h]).value;
    match CheckedSub(now, ages.datasetAge)
    case Some(instant) => Entry(d, instant, ttlSeconds * TICKS, stamps, true)
    case None => Entry(d, now, 0, stamps, true)
  }

  predicate IsFresh(e: Entry, now: nat) {
    e.complete && Elapsed(now, e.fetchedAt) < e.ttl
  }

  predicate IsHostFresh(e: Entry, host: string, ttlSeconds: nat, now: nat) {
    host in e.stamps && Elapsed(now, e.stamps[host]) < ttlSeconds * TICKS
  }

  function HostAgeSeconds(e: Entry, host: string, now: nat): Option<nat> {
    if host in e.stamps then Some(Elapsed(now, e.stamps[host]) / TICKS) else None
  }

  function UpdateHostAged(e: Entry, host: string, vars: HostVars, ageSeconds: nat, now: nat): Entry {
    e.(dataset := e.dataset.(hostvars := e.dataset.hostvars[host := vars]),
       stamps := e.stamps[host := Backdated(now, ageSeconds)])
  }

  function CaptureHost(e: Entry, host: string, now: nat): Option<Retained> {
    if host !in e.dataset.hostvars then None
    else
      var age := HostAgeSeconds(e, host, now);
      Some(Retained(host, e.dataset.hostvars[host], if age.Some? then age.value else 0,
                    GroupsOf(e.dataset.groups, host)))
  }

  /** The groups with `host` added to each of the named ones, created if missing. */
  function Joined(groups: map<string, Group>, host: string, names: set<string>): map<string, Group> {
    map name | name in groups.Keys + names ::
      var g := GroupOr(groups, name);
      if name in names then g.(hosts := Including(g.hosts, host)) else g
  }

  function RestoreHost(e: Entry, r: Retained, now: nat): Entry {
    var updated := UpdateHostAged(e, r.hostname, r.vars, r.ageSeconds, now);
    updated.(dataset := updated.dataset.(groups := Joined(updated.dataset.groups, r.hostname, r.groups)))
  }

  /** One host's membership replaced; the implicit groups are not anyone's to state. */
  function SetHostGroups(e: Entry, host: string, groups: set<string>): Entry {
    var left := map name | name in e.dataset.groups ::
      var g := e.dataset.groups[name];
      if IsMetaGroup(name) || name in groups then g else g.(hosts := Without(g.hosts, host));
    e.(dataset := e.dataset.(groups := Joined(left, host, set g | g in groups && !IsMetaGroup(g))))
  }

  /** Key by key, on hosts already here. */
  function MergeHostvarFields(e: Entry, partial: Dataset): Entry {
    e.(dataset := e.dataset.(hostvars :=
      map h | h in e.dataset.hostvars ::
        if h in partial.hostvars then e.dataset.hostvars[h] + partial.hostvars[h]
        else e.dataset.hostvars[h]))
  }

  /** Key by key; a group not here is created as the partial describes it. */
  function MergeGroupVarFields(e: Entry, partial: Dataset): Entry {
    var described := set name | name in partial.groups && partial.groups[name].vars.Some?;
    e.(dataset := e.dataset.(groups :=
      map name | name in e.dataset.groups.Keys + described ::
        if name !in described then e.dataset.groups[name]
        else if name in e.dataset.groups then
          var g := e.dataset.groups[name];
          g.(vars := Some((if g.vars.Some? then g.vars.value else map[]) + partial.groups[name].vars.value))
        else partial.groups[name]))
  }

  function RemoveHosts(d: Dataset, gone: seq<string>): Dataset {
    Dataset(d.hostvars - Gone(gone),
            map name | name in d.groups :: d.groups[name].(hosts := WithoutAll(d.groups[name].hosts, gone)),
            d.removeHosts)
  }

  function Gone(names: seq<string>): set<string> {
    set n | n in names
  }

  function WithoutAll(hosts: seq<string>, gone: seq<string>): (r: seq<string>)
    ensures forall h :: h in r <==> h in hosts && h !in gone
  {
    if gone == [] then hosts else Without(WithoutAll(hosts, gone[..|gone| - 1]), gone[|gone| - 1])
  }

  /** Patch in what came; the rest is left alone. */
  function MergeInto(e: Entry, partial: Dataset, restampExisting: bool, now: nat): Entry {
    var added := map h | h in partial.hostvars && (restampExisting || h !in e.stamps) :: now;
    e.(dataset := RemoveHosts(
         e.dataset.(hostvars := e.dataset.hostvars + partial.hostvars,
                    groups := e.dataset.groups + partial.groups),
         partial.removeHosts),
       stamps := (e.stamps + added) - Gone(partial.removeHosts))
  }

  function RemoveHost(e: Entry, host: string): Entry {
    e.(dataset := RemoveHosts(e.dataset, [host]), stamps := e.stamps - {host})
  }

  /** The part of a map under some names. */
  function Only<V>(m: map<string, V>, names: set<string>): map<string, V> {
    map n | n in names && n in m :: m[n]
  }

  function UpdateGroup(e: Entry, name: string, partial: Dataset, now: nat): Entry {
    var members := if name in e.dataset.groups then Gone(e.dataset.groups[name].hosts) else {};
    var groups := if name in partial.groups && name in e.dataset.groups
      then e.dataset.groups[name := e.dataset.groups[name].(vars := partial.groups[name].vars)]
      else e.dataset.groups;
    e.(dataset := e.dataset.(hostvars := e.dataset.hostvars + Only(partial.hostvars, members),
                             groups := groups),
       stamps := e.stamps + Only(map h | h in partial.hostvars :: now, members))
  }

  function MarkPartial(e: Entry): Entry {
    e.(complete := false)
  }

  function MarkGathered(e: Entry, now: nat): Entry {
    e.(fetchedAt := now, complete := true)
  }

  function SetTtl(e: Entry, ttlSeconds: nat): Entry {
    e.(ttl := ttlSeconds * TICKS)
  }

  /** Every host has a timestamp, and nothing else has one. */
  predicate KeysAgree(e: Entry) {
    e.stamps.Keys == e.dataset.hostvars.Keys
  }

  /** No timestamp is later than `now`. */
  predicate StampedBy(e: Entry, now: nat) {
    forall h | h in e.stamps :: e.stamps[h] <= now
  }
}
