/** The cache entry as the program holds it: an object whose mutators patch it in
    place, and a serialisation cell that clones share
    (src/domain/cache_entry.rs:39-544). The dataset and the timestamps sit behind
    copy-on-write pointers, so they behave as values; the cell is a shared object.

    Each mutator is proved to compute the function of the same name in Entries,
    and to leave behind a cell that cannot serve another dataset's bytes. */
module CacheEntries {
  import opened Json
  import opened Datasets
  import opened Entries
  import opened Retention

  /** The JSON text of a dataset, known by what it is the text of. */
  datatype Bytes = TextOf(dataset: Dataset)

  function Serialize(d: Dataset): Bytes {
    TextOf(d)
  }

  /** Written at most once, read by every entry that shares it. */
  class Cell {
    var json: Option<Bytes>
    // The dataset whose text this cell is for.
    ghost var owner: Dataset

    ghost predicate Valid()
      reads this
    {
      json.Some? ==> json.value == Serialize(owner)
    }

    constructor ()
      ensures json == None
    {
      json := None;
    }
  }

  class CacheEntry {
    var dataset: Dataset
    var fetchedAt: nat
    var ttl: nat
    var stamps: map<string, nat>
    var complete: bool
    var serialized: Cell

    ghost function View(): Entry
      reads this
    {
      Entry(dataset, fetchedAt, ttl, stamps, complete)
    }

    ghost predicate Valid()
      reads this, serialized
    {
      serialized.owner == dataset && serialized.Valid()
    }

    constructor New(d: Dataset, ttlSeconds: nat, now: nat)
      ensures Valid() && fresh(serialized)
      ensures View() == Entries.New(d, ttlSeconds, now)
    {
      dataset, fetchedAt, ttl, complete := d, now, ttlSeconds * TICKS, true;
      stamps := map h | h in d.hostvars :: now;
      serialized := new Cell();
      new;
      serialized.owner := dataset;
    }

    constructor Restore(d: Dataset, ttlSeconds: nat, ages: Ages, now: nat)
      ensures Valid() && fresh(serialized)
      ensures View() == Entries.Restore(d, ttlSeconds, ages, now)
    {
      dataset, complete := d, true;
      match CheckedSub(now, ages.datasetAge) {
        case Some(instant) => fetchedAt, ttl := instant, ttlSeconds * TICKS;
        case None => fetchedAt, ttl := now, 0;
      }
      stamps := map h | h in ages.hostAges && CheckedSub(now, ages.hostAges[h]).Some?
        :: CheckedSub(now, ages.hostAges[h]).value;
      serialized := new Cell();
      new;
      serialized.owner := dataset;
    }

    /** A clone has the same content and shares the cell. */
    constructor Clone(e: CacheEntry)
      requires e.Valid()
      ensures Valid() && View() == e.View() && serialized == e.serialized
    {
      dataset, fetchedAt, ttl, stamps, complete := e.dataset, e.fetchedAt, e.ttl, e.stamps, e.complete;
      serialized := e.serialized;
    }

    /** The text of the dataset, built by whoever asks first. */
    method SerializedJson() returns (bytes: Bytes)
      requires Valid()
      modifies serialized`json
      ensures Valid() && bytes == Serialize(dataset)
      ensures serialized.json == Some(bytes)
    {
      if serialized.json.None? {
        serialized.json := Some(Serialize(dataset));
      }
      bytes := serialized.json.value;
    }

    method Invalidate()
      modifies this`serialized
      ensures fresh(serialized) && serialized.json == None
    {
      serialized := new Cell();
    }

    method UpdateHostAged(host: string, vars: HostVars, ageSeconds: nat, now: nat)
      requires Valid()
      modifies this
      ensures Valid() && fresh(serialized) && serialized.json == None
      ensures View() == Entries.UpdateHostAged(old(View()), host, vars, ageSeconds, now)
    {
      Invalidate();
      dataset := dataset.(hostvars := dataset.hostvars[host := vars]);
      stamps := stamps[host := Backdated(now, ageSeconds)];
      serialized.owner := dataset;
    }

    method CaptureHost(host: string, now: nat) returns (r: Option<Retained>)
      ensures r == Entries.CaptureHost(View(), host, now)
    {
      if host !in dataset.hostvars {
        return None;
      }
      var names: set<string> := {};
      var todo := dataset.groups.Keys;
      while todo != {}
        invariant todo <= dataset.groups.Keys
        invariant names == set n | n in GroupsOf(dataset.groups, host) && n !in todo
        decreases todo
      {
        var name :| name in todo;
        if host in dataset.groups[name].hosts {
          names := names + {name};
        }
        todo := todo - {name};
      }
      assert names == GroupsOf(dataset.groups, host);
      var age := if host in stamps then Elapsed(now, stamps[host]) / TICKS else 0;
      r := Some(Retained(host, dataset.hostvars[host], age, names));
    }

    method RestoreHost(r: Retained, now: nat)
      requires Valid()
      modifies this
      ensures Valid() && fresh(serialized) && serialized.json == None
      ensures View() == Entries.RestoreHost(old(View()), r, now)
    {
      UpdateHostAged(r.hostname, r.vars, r.ageSeconds, now);
      var groups := JoinGroups(dataset.groups, r.hostname, r.groups);
      dataset := dataset.(groups := groups);
      serialized.owner := dataset;
    }

    method SetHostGroups(host: string, named: set<string>)
      requires Valid()
      modifies this
      ensures Valid() && fresh(serialized) && serialized.json == None
      ensures View() == Entries.SetHostGroups(old(View()), host, named)
    {
      Invalidate();
      var left := LeaveGroups(dataset.groups, host, named);
      var groups := JoinGroups(left, host, set g | g in named && !IsMetaGroup(g));
      dataset := dataset.(groups := groups);
      serialized.owner := dataset;
    }

    method MergeHostvarFields(partial: Dataset)
      requires Valid()
      modifies this
      ensures Valid() && fresh(serialized) && serialized.json == None
      ensures View() == Entries.MergeHostvarFields(old(View()), partial)
    {
      Invalidate();
      ghost var before := dataset.hostvars;
      var hostvars := dataset.hostvars;
      var todo := partial.hostvars.Keys;
      while todo != {}
        invariant todo <= partial.hostvars.Keys
        invariant hostvars.Keys == before.Keys
        invariant forall h | h in before :: hostvars[h] ==
                    if h in partial.hostvars && h !in todo then before[h] + partial.hostvars[h] else before[h]
        decreases todo
      {
        var host :| host in todo;
        if host in hostvars {
          hostvars := hostvars[host := hostvars[host] + partial.hostvars[host]];
        }
        todo := todo - {host};
      }
      dataset := dataset.(hostvars := hostvars);
      serialized.owner := dataset;
    }

    method MergeGroupVarFields(partial: Dataset)
      requires Valid()
      modifies this
      ensures Valid() && fresh(serialized) && serialized.json == None
      ensures View() == Entries.MergeGroupVarFields(old(View()), partial)
    {
      Invalidate();
      ghost var start := View();
      ghost var full := Entries.MergeGroupVarFields(start, partial).dataset.groups;
      var groups := dataset.groups;
      var todo := partial.groups.Keys;
      while todo != {}
        invariant todo <= partial.groups.Keys
        invariant forall n :: n in groups <==> n in start.dataset.groups || (n in full && n !in todo)
        invariant forall n | n in groups :: groups[n] ==
                    if n in full && n !in todo then full[n] else start.dataset.groups[n]
        decreases todo
      {
        var name :| name in todo;
        var group := partial.groups[name];
        if group.vars.Some? {
          if name in groups {
            var existing := groups[name];
            var vars := if existing.vars.Some? then existing.vars.value else map[];
            groups := groups[name := existing.(vars := Some(vars + group.vars.value))];
          } else {
            groups := groups[name := group];
          }
        }
        todo := todo - {name};
      }
      assert groups == full;
      dataset := dataset.(groups := groups);
      serialized.owner := dataset;
    }

    method MergeInto(partial: Dataset, restampExisting: bool, now: nat)
      requires Valid()
      modifies this
      ensures Valid() && fresh(serialized) && serialized.json == None
      ensures View() == Entries.MergeInto(old(View()), partial, restampExisting, now)
    {
      Invalidate();
      var hostvars, times := MergeHosts(dataset.hostvars, stamps, partial.hostvars, restampExisting, now);
      dataset := dataset.(hostvars := hostvars, groups := dataset.groups + partial.groups);
      dataset, stamps := RemoveEach(dataset, times, partial.removeHosts);
      serialized.owner := dataset;
    }

    method RemoveHost(host: string)
      requires Valid()
      modifies this
      ensures Valid() && fresh(serialized) && serialized.json == None
      ensures View() == Entries.RemoveHost(old(View()), host)
    {
      Invalidate();
      dataset := RemoveHosts(dataset, [host]);
      stamps := stamps - {host};
      serialized.owner := dataset;
    }

    method UpdateGroup(name: string, partial: Dataset, now: nat)
      requires Valid()
      modifies this
      ensures Valid() && fresh(serialized) && serialized.json == None
      ensures View() == Entries.UpdateGroup(old(View()), name, partial, now)
    {
      Invalidate();
      if name in dataset.groups {
        var hostvars, times := MergeMembers(dataset.hostvars, stamps, dataset.groups[name].hosts,
                                            partial.hostvars, now);
        dataset := dataset.(hostvars := hostvars);
        stamps := times;
      }
      if name in partial.groups && name in dataset.groups {
        var group := dataset.groups[name].(vars := partial.groups[name].vars);
        dataset := dataset.(groups := dataset.groups[name := group]);
      }
      serialized.owner := dataset;
    }

    method MarkPartial()
      requires Valid()
      modifies this`complete
      ensures Valid() && View() == Entries.MarkPartial(old(View()))
    {
      complete := false;
    }

    method MarkGathered(now: nat)
      requires Valid()
      modifies this`fetchedAt, this`complete
      ensures Valid() && View() == Entries.MarkGathered(old(View()), now)
    {
      fetchedAt, complete := now, true;
    }

    method SetTtl(ttlSeconds: nat)
      requires Valid()
      modifies this`ttl
      ensures Valid() && View() == Entries.SetTtl(old(View()), ttlSeconds)
    {
      ttl := ttlSeconds * TICKS;
    }
  }

  /** The host out of every group that is neither named nor implicit. */
  method LeaveGroups(groups: map<string, Group>, host: string, named: set<string>) returns (r: map<string, Group>)
    ensures r == map n | n in groups ::
                   var g := groups[n];
                   if IsMetaGroup(n) || n in named then g else g.(hosts := Without(g.hosts, host))
  {
    r := groups;
    var todo := groups.Keys;
    while todo != {}
      invariant todo <= groups.Keys == r.Keys
      invariant forall n | n in groups :: r[n] ==
                  if n in todo || IsMetaGroup(n) || n in named then groups[n]
                  else groups[n].(hosts := Without(groups[n].hosts, host))
      decreases todo
    {
      var name :| name in todo;
      if !IsMetaGroup(name) && name !in named {
        r := r[name := r[name].(hosts := Without(r[name].hosts, host))];
      }
      todo := todo - {name};
    }
  }

  lemma {:induction false} PatchOneMore<V>(base: map<string, V>, patch: map<string, V>, names: set<string>, n: string)
    ensures base + Only(patch, names + {n})
         == if n in patch then (base + Only(patch, names))[n := patch[n]] else base + Only(patch, names)
  {
  }

  lemma {:induction false} PatchAll<V>(patch: map<string, V>, names: set<string>)
    requires patch.Keys <= names
    ensures Only(patch, names) == patch
  {
  }

  /** Hosts patched in, and stamped where a gather says so. */
  method MergeHosts(before: map<string, HostVars>, times: map<string, nat>, incoming: map<string, HostVars>,
                    restampExisting: bool, now: nat)
    returns (hostvars: map<string, HostVars>, stamps: map<string, nat>)
    ensures hostvars == before + incoming
    ensures stamps == times + (map h | h in incoming && (restampExisting || h !in times) :: now)
  {
    hostvars, stamps := before, times;
    ghost var stamped := map h | h in incoming && (restampExisting || h !in times) :: now;
    var todo := incoming.Keys;
    ghost var done: set<string> := {};
    while todo != {}
      invariant todo !! done && todo + done == incoming.Keys
      invariant hostvars == before + Only(incoming, done)
      invariant stamps == times + Only(stamped, done)
      decreases todo
    {
      var host :| host in todo;
      PatchOneMore(before, incoming, done, host);
      PatchOneMore(times, stamped, done, host);
      hostvars := hostvars[host := incoming[host]];
      if restampExisting || host !in stamps {
        stamps := stamps[host := now];
      }
      todo, done := todo - {host}, done + {host};
    }
    PatchAll(incoming, done);
    PatchAll(stamped, done);
  }

  /** Each named host out of the dataset, its groups and the timestamps. */
  method RemoveEach(before: Dataset, times: map<string, nat>, gone: seq<string>)
    returns (d: Dataset, stamps: map<string, nat>)
    ensures d == RemoveHosts(before, gone) && stamps == times - Gone(gone)
  {
    hide Entries.RemoveHosts;
    d, stamps := before, times;
    RemoveNobody(before);
    for i := 0 to |gone|
      invariant d == RemoveHosts(before, gone[..i])
      invariant stamps == times - Gone(gone[..i])
    {
      RemoveOneMore(before, gone[..i], gone[i]);
      assert gone[..i + 1] == gone[..i] + [gone[i]];
      d := RemoveHosts(d, [gone[i]]);
      stamps := stamps - {gone[i]};
    }
    assert gone[..|gone|] == gone;
  }

  lemma {:induction false} RemoveNobody(d: Dataset)
    ensures RemoveHosts(d, []) == d
  {
    assert RemoveHosts(d, []).groups == d.groups;
  }

  /** The members of a group that came, patched in and stamped. */
  method MergeMembers(before: map<string, HostVars>, times: map<string, nat>, members: seq<string>,
                      incoming: map<string, HostVars>, now: nat)
    returns (hostvars: map<string, HostVars>, stamps: map<string, nat>)
    ensures hostvars == before + Only(incoming, Gone(members))
    ensures stamps == times + Only(map h | h in incoming :: now, Gone(members))
  {
    hostvars, stamps := before, times;
    ghost var stamped := map h | h in incoming :: now;
    for i := 0 to |members|
      invariant hostvars == before + Only(incoming, Gone(members[..i]))
      invariant stamps == times + Only(stamped, Gone(members[..i]))
    {
      PatchOneMore(before, incoming, Gone(members[..i]), members[i]);
      PatchOneMore(times, stamped, Gone(members[..i]), members[i]);
      assert Gone(members[..i + 1]) == Gone(members[..i]) + {members[i]};
      if members[i] in incoming {
        hostvars := hostvars[members[i] := incoming[members[i]]];
        stamps := stamps[members[i] := now];
      }
    }
    assert members[..|members|] == members;
  }

  /** The host added to each named group, created if missing. */
  method JoinGroups(groups: map<string, Group>, host: string, names: set<string>) returns (r: map<string, Group>)
    ensures r == Joined(groups, host, names)
  {
    r := groups;
    var todo := names;
    while todo != {}
      invariant todo <= names
      invariant r.Keys == groups.Keys + (names - todo)
      invariant forall n | n in r :: r[n] ==
                  if n in names && n !in todo
                  then GroupOr(groups, n).(hosts := Including(GroupOr(groups, n).hosts, host))
                  else groups[n]
      decreases todo
    {
      var name :| name in todo;
      var group := GroupOr(r, name);
      if host !in group.hosts {
        group := group.(hosts := group.hosts + [host]);
      }
      r := r[name := group];
      todo := todo - {name};
    }
  }

  lemma {:induction false} RemoveOneMore(d: Dataset, gone: seq<string>, host: string)
    ensures RemoveHosts(RemoveHosts(d, gone), [host]) == RemoveHosts(d, gone + [host])
    ensures Gone(gone + [host]) == Gone(gone) + {host}
  {
    assert (gone + [host])[..|gone|] == gone;
    assert [host][..0] == [];
    forall n | n in d.groups
      ensures WithoutAll(WithoutAll(d.groups[n].hosts, gone), [host]) == WithoutAll(d.groups[n].hosts, gone + [host])
    {
      var hosts := WithoutAll(d.groups[n].hosts, gone);
      assert WithoutAll(hosts, []) == hosts;
    }
  }
}
