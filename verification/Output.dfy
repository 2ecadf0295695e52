/** What every endpoint format starts from: the sources' datasets limited to the
    hosts of one of them, merged, filtered and shaped
    (src/application/output.rs:35-77, 159-283). Settings arrive here as read from
    the request; the host filter is any predicate on a host's name and variables. */
module Output {
  import opened Text
  import opened Json
  import opened Datasets
  import opened VarPath

  type Loaded = map<string, Dataset>

  /** `groups` is None when no group was asked for; `filter` is None when the text of
      the filter could not be read. */
  datatype Settings = Settings(
    groups: Option<seq<string>>,
    fields: seq<string>,
    exclude: seq<string>,
    filter: Option<(string, HostVars) -> bool>)

  // ----- limiting -----

  /** The hosts of the limiting source; none if that source is not there. */
  function Allowed(datasets: Loaded, source: string): set<string> {
    if source in datasets then datasets[source].hostvars.Keys else {}
  }

  ghost predicate IsLimited(d: Dataset, allowed: set<string>, limited: Dataset) {
    && limited.removeHosts == d.removeHosts
    && limited.hostvars == (map h | h in d.hostvars && h in allowed :: d.hostvars[h])
    && limited.groups.Keys == d.groups.Keys
    && forall n | n in d.groups :: limited.groups[n] == d.groups[n].(hosts := Within(d.groups[n].hosts, allowed))
  }

  method LimitDataset(d: Dataset, allowed: set<string>) returns (limited: Dataset)
    ensures IsLimited(d, allowed, limited)
  {
    var groups := d.groups;
    var todo := d.groups.Keys;
    while todo != {}
      invariant todo <= d.groups.Keys && groups.Keys == d.groups.Keys
      invariant forall n | n in d.groups ::
                  groups[n] == if n in todo then d.groups[n] else d.groups[n].(hosts := Within(d.groups[n].hosts, allowed))
      decreases todo
    {
      var n :| n in todo;
      groups, todo := groups[n := groups[n].(hosts := Within(groups[n].hosts, allowed))], todo - {n};
    }
    limited := Dataset(map h | h in d.hostvars && h in allowed :: d.hostvars[h], groups, d.removeHosts);
  }

  method ApplyLimit(datasets: Loaded, limit: Option<string>) returns (limited: Loaded)
    ensures limit == None ==> limited == datasets
    ensures limit.Some? ==> AllLimited(datasets, Allowed(datasets, limit.value), limited)
  {
    if limit.None? {
      return datasets;
    }
    var allowed := Allowed(datasets, limit.value);
    limited := map[];
    var todo := datasets.Keys;
    while todo != {}
      invariant todo <= datasets.Keys && limited.Keys == datasets.Keys - todo
      invariant forall id | id in limited :: IsLimited(datasets[id], allowed, limited[id])
      decreases todo
    {
      var id :| id in todo;
      var one := LimitDataset(datasets[id], allowed);
      limited, todo := limited[id := one], todo - {id};
    }
  }

  ghost predicate AllLimited(datasets: Loaded, allowed: set<string>, limited: Loaded) {
    limited.Keys == datasets.Keys && forall id | id in datasets :: IsLimited(datasets[id], allowed, limited[id])
  }

  // ----- merging -----

  function AppendNew(names: seq<string>, more: seq<string>): seq<string> {
    if more == [] then names
    else Including(AppendNew(names, more[..|more| - 1]), more[|more| - 1])
  }

  function OrNone(vars: Option<HostVars>): HostVars {
    if vars.Some? then vars.value else map[]
  }

  function MergedWith(group: Option<Group>, more: Group): Group {
    var was := if group.Some? then group.value else EMPTY_GROUP;
    Group(AppendNew(was.hosts, more.hosts), AppendNew(was.children, more.children),
          if more.vars.Some? then Some(OrNone(was.vars) + more.vars.value) else was.vars)
  }

  /** The group of that name over these sources, in this order. */
  function MergedGroup(datasets: Loaded, ids: seq<string>, name: string): Option<Group>
    requires forall id | id in ids :: id in datasets
  {
    if ids == [] then None
    else
      var n := |ids| - 1;
      var sofar := MergedGroup(datasets, ids[..n], name);
      var groups := datasets[ids[n]].groups;
      if name in groups then Some(MergedWith(sofar, groups[name])) else sofar
  }

  /** A host's variables over these sources: a later source overwrites. */
  function MergedHost(datasets: Loaded, ids: seq<string>, host: string): Option<HostVars>
    requires forall id | id in ids :: id in datasets
  {
    if ids == [] then None
    else
      var n := |ids| - 1;
      var sofar := MergedHost(datasets, ids[..n], host);
      var hostvars := datasets[ids[n]].hostvars;
      if host in hostvars then Some(OrNone(sofar) + hostvars[host]) else sofar
  }

  function Find<V>(m: map<string, V>, key: string): Option<V> {
    if key in m then Some(m[key]) else None
  }

  ghost predicate IsMerged(datasets: Loaded, ids: seq<string>, hostvars: map<string, HostVars>, groups: map<string, Group>)
    requires forall id | id in ids :: id in datasets
  {
    && (forall h :: Find(hostvars, h) == MergedHost(datasets, ids, h))
    && (forall n :: Find(groups, n) == MergedGroup(datasets, ids, n))
  }

  method Append(names: seq<string>, more: seq<string>) returns (r: seq<string>)
    ensures r == AppendNew(names, more)
  {
    r := names;
    for i := 0 to |more|
      invariant r == AppendNew(names, more[..i])
    {
      assert more[..i + 1][..i] == more[..i];
      if more[i] !in r {
        r := r + [more[i]];
      }
    }
    assert more[..|more|] == more;
  }

  ghost predicate HostsOnTop(was: map<string, HostVars>, more: map<string, HostVars>, merged: map<string, HostVars>) {
    forall h :: Find(merged, h) == if h in more then Some(OrNone(Find(was, h)) + more[h]) else Find(was, h)
  }

  ghost predicate GroupsOnTop(was: map<string, Group>, more: map<string, Group>, merged: map<string, Group>) {
    forall n :: Find(merged, n) == if n in more then Some(MergedWith(Find(was, n), more[n])) else Find(was, n)
  }

  /** One source's hosts on top of what is merged. */
  method MergeHosts(was: map<string, HostVars>, more: map<string, HostVars>) returns (merged: map<string, HostVars>)
    ensures HostsOnTop(was, more, merged)
  {
    merged := was;
    var todo := more.Keys;
    while todo != {}
      invariant todo <= more.Keys
      invariant forall h :: Find(merged, h) ==
                  if h in more && h !in todo then Some(OrNone(Find(was, h)) + more[h]) else Find(was, h)
      decreases todo
    {
      var h :| h in todo;
      assert Find(merged, h) == Find(was, h);
      merged, todo := merged[h := (if h in merged then merged[h] else map[]) + more[h]], todo - {h};
    }
  }

  method MergeGroups(was: map<string, Group>, more: map<string, Group>) returns (merged: map<string, Group>)
    ensures GroupsOnTop(was, more, merged)
  {
    hide AppendNew;
    merged := was;
    var todo := more.Keys;
    while todo != {}
      invariant todo <= more.Keys
      invariant forall n :: Find(merged, n) ==
                  if n in more && n !in todo then Some(MergedWith(Find(was, n), more[n])) else Find(was, n)
      decreases todo
    {
      var n :| n in todo;
      assert Find(merged, n) == Find(was, n);
      var group := if n in merged then merged[n] else EMPTY_GROUP;
      var hosts := Append(group.hosts, more[n].hosts);
      var children := Append(group.children, more[n].children);
      var vars := if more[n].vars.Some? then Some(OrNone(group.vars) + more[n].vars.value) else group.vars;
      merged, todo := merged[n := Group(hosts, children, vars)], todo - {n};
    }
  }

  method MergeAll(datasets: Loaded) returns (hostvars: map<string, HostVars>, groups: map<string, Group>)
    ensures IsMerged(datasets, Listing(datasets.Keys), hostvars, groups)
  {
    hide IsMerged, HostsOnTop, GroupsOnTop;
    var ids := List(datasets.Keys);
    hostvars, groups := map[], map[];
    NothingMerged(datasets);
    for i := 0 to |ids|
      invariant IsMerged(datasets, ids[..i], hostvars, groups)
    {
      var moreHosts := MergeHosts(hostvars, datasets[ids[i]].hostvars);
      var moreGroups := MergeGroups(groups, datasets[ids[i]].groups);
      OneMoreSource(datasets, ids, i, hostvars, groups, moreHosts, moreGroups);
      hostvars, groups := moreHosts, moreGroups;
    }
    assert ids[..|ids|] == ids;
  }

  lemma NothingMerged(datasets: Loaded)
    ensures IsMerged(datasets, [], map[], map[])
  {
  }

  lemma OneMoreSource(datasets: Loaded, ids: seq<string>, i: nat, hostvars: map<string, HostVars>, groups: map<string, Group>,
                      moreHosts: map<string, HostVars>, moreGroups: map<string, Group>)
    requires i < |ids| && forall id | id in ids :: id in datasets
    requires IsMerged(datasets, ids[..i], hostvars, groups)
    requires HostsOnTop(hostvars, datasets[ids[i]].hostvars, moreHosts)
    requires GroupsOnTop(groups, datasets[ids[i]].groups, moreGroups)
    ensures IsMerged(datasets, ids[..i + 1], moreHosts, moreGroups)
  {
    hide MergedWith, Find;
    assert ids[..i + 1][..i] == ids[..i];
    forall h
      ensures Find(moreHosts, h) == MergedHost(datasets, ids[..i + 1], h)
    {
      assert Find(hostvars, h) == MergedHost(datasets, ids[..i], h);
    }
    forall n
      ensures Find(moreGroups, n) == MergedGroup(datasets, ids[..i + 1], n)
    {
      assert Find(groups, n) == MergedGroup(datasets, ids[..i], n);
    }
  }

  // ----- filtering and shaping -----

  /** The host is in one of the named groups. */
  predicate InNamed(groups: map<string, Group>, names: seq<string>, host: string) {
    exists n | n in names :: n in groups && host in groups[n].hosts
  }

  predicate Passes(settings: Settings, groups: map<string, Group>, host: string, vars: HostVars) {
    && (settings.groups.Some? ==> InNamed(groups, settings.groups.value, host))
    && settings.filter.Some? && settings.filter.value(host, vars)
  }

  function KeepOf(settings: Settings): Option<seq<string>> {
    if settings.fields == [] then None else Some(settings.fields)
  }

  /** A host's variables as the response carries them. */
  ghost predicate Shaped(settings: Settings, vars: HostVars, out: HostVars) {
    exists kept ::
      && (if settings.fields == [] then kept == vars else Keeps(vars, settings.fields, kept))
      && Drops(kept, settings.exclude, out)
  }

  /** The hosts that pass, each shaped. */
  ghost predicate HostsAnswer(settings: Settings, merged: map<string, HostVars>, groups: map<string, Group>,
                              out: map<string, HostVars>) {
    && (forall h :: h in out <==> h in merged && Passes(settings, groups, h, merged[h]))
    && (forall h | h in out :: Shaped(settings, merged[h], out[h]))
  }

  /** A group that named hosts goes when none survives and it has no children; one
      that never did stays for its children or its variables. */
  predicate Stays(was: Group, now: Group) {
    if was.hosts != [] then now.hosts != [] || now.children != []
    else now.children != [] || !NoVars(now.vars)
  }

  ghost predicate Trimmed(settings: Settings, was: Group, survivors: set<string>, now: Group) {
    && now.hosts == Within(was.hosts, survivors)
    && now.children == was.children
    && (now.vars.Some? <==> was.vars.Some?)
    && (was.vars.Some? ==> Drops(was.vars.value, settings.exclude, now.vars.value))
  }

  ghost predicate GroupsAnswer(settings: Settings, groups: map<string, Group>, survivors: set<string>,
                               out: map<string, Group>) {
    && (forall n | n in out :: n in groups && Trimmed(settings, groups[n], survivors, out[n]) && Stays(groups[n], out[n]))
    && (forall n | n in groups && n !in out ::
          exists now :: Trimmed(settings, groups[n], survivors, now) && !Stays(groups[n], now))
  }

  ghost predicate IsAnswer(datasets: Loaded, settings: Settings, hostvars: map<string, HostVars>, groups: map<string, Group>) {
    if settings.filter.None? then hostvars == map[] && groups == map[]
    else
      exists merged: map<string, HostVars>, mergedGroups: map<string, Group> ::
        && IsMerged(datasets, Listing(datasets.Keys), merged, mergedGroups)
        && HostsAnswer(settings, merged, mergedGroups, hostvars)
        && GroupsAnswer(settings, mergedGroups, hostvars.Keys, groups)
  }

  method FilterHosts(settings: Settings, merged: map<string, HostVars>, groups: map<string, Group>)
    returns (out: map<string, HostVars>)
    requires settings.filter.Some?
    ensures forall h :: h in out <==> h in merged && Passes(settings, groups, h, merged[h])
    ensures forall h | h in out :: out[h] == merged[h]
  {
    out := merged;
    if settings.groups.Some? {
      var names := settings.groups.value;
      var allowed: set<string> := {};
      for i := 0 to |names|
        invariant forall h :: h in allowed <==> InNamed(groups, names[..i], h)
      {
        assert names[..i + 1] == names[..i] + [names[i]];
        if names[i] in groups {
          allowed := allowed + Elements(groups[names[i]].hosts);
        }
      }
      assert names[..|names|] == names;
      out := map h | h in out && h in allowed :: out[h];
    }
    out := map h | h in out && settings.filter.value(h, out[h]) :: out[h];
  }

  method ShapeHosts(settings: Settings, hostvars: map<string, HostVars>) returns (out: map<string, HostVars>)
    ensures out.Keys == hostvars.Keys
    ensures forall h | h in out :: Shaped(settings, hostvars[h], out[h])
  {
    hide Keeps, Drops;
    out := hostvars;
    var todo := hostvars.Keys;
    while todo != {}
      invariant todo <= hostvars.Keys && out.Keys == hostvars.Keys
      invariant forall h | h in out && h !in todo :: Shaped(settings, hostvars[h], out[h])
      invariant forall h | h in todo :: out[h] == hostvars[h]
      decreases todo
    {
      var h :| h in todo;
      var shaped, kept := ShapeHost(out[h], KeepOf(settings), settings.exclude);
      assert Shaped(settings, hostvars[h], shaped);
      out, todo := out[h := shaped], todo - {h};
    }
  }

  method TrimGroup(settings: Settings, group: Group, survivors: set<string>) returns (now: Group)
    ensures Trimmed(settings, group, survivors, now)
  {
    var vars := group.vars;
    if vars.Some? {
      var left := DropPaths(vars.value, settings.exclude);
      vars := Some(left);
    }
    now := Group(Within(group.hosts, survivors), group.children, vars);
  }

  method TrimGroups(settings: Settings, groups: map<string, Group>, survivors: set<string>)
    returns (out: map<string, Group>)
    ensures GroupsAnswer(settings, groups, survivors, out)
  {
    hide Trimmed, Stays;
    out := map[];
    var todo := groups.Keys;
    while todo != {}
      invariant todo <= groups.Keys && out.Keys <= groups.Keys - todo
      invariant forall n | n in out :: Trimmed(settings, groups[n], survivors, out[n]) && Stays(groups[n], out[n])
      invariant forall n | n in groups && n !in todo && n !in out ::
                  exists now :: Trimmed(settings, groups[n], survivors, now) && !Stays(groups[n], now)
      decreases todo
    {
      var n :| n in todo;
      todo := todo - {n};
      var now := TrimGroup(settings, groups[n], survivors);
      if Stays(groups[n], now) {
        out := out[n := now];
      }
    }
  }

  method MergeAndFilter(datasets: Loaded, settings: Settings)
    returns (hostvars: map<string, HostVars>, groups: map<string, Group>)
    ensures IsAnswer(datasets, settings, hostvars, groups)
  {
    hide IsMerged, Passes, Shaped, GroupsAnswer;
    if settings.filter.None? {
      return map[], map[];
    }
    var merged, mergedGroups := MergeAll(datasets);
    var passing := FilterHosts(settings, merged, mergedGroups);
    hostvars := ShapeHosts(settings, passing);
    groups := TrimGroups(settings, mergedGroups, hostvars.Keys);
    assert HostsAnswer(settings, merged, mergedGroups, hostvars);
  }
}
