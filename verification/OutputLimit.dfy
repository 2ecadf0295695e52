/** A limit commutes with merging, filtering and shaping, as far as hosts go
    (src/application/output.rs:35-77, 159-253). */
module OutputLimit {
  import opened Text
  import opened Json
  import opened Datasets
  import opened VarPath
  import opened Output

  lemma {:induction false} WithinSnoc(names: seq<string>, name: string, allowed: set<string>)
    ensures Within(names + [name], allowed) == if name in allowed then Within(names, allowed) + [name] else Within(names, allowed)
  {
    assert (names + [name])[..|names|] == names;
  }

  lemma {:induction false} WithinAppendNew(names: seq<string>, more: seq<string>, allowed: set<string>)
    ensures Within(AppendNew(names, more), allowed) == AppendNew(Within(names, allowed), Within(more, allowed))
  {
    if more != [] {
      var n := |more| - 1;
      WithinAppendNew(names, more[..n], allowed);
      WithinSnoc(more[..n], more[n], allowed);
      WithinSnoc(AppendNew(names, more[..n]), more[n], allowed);
      assert more == more[..n] + [more[n]];
      if more[n] in allowed {
        var kept := Within(more[..n], allowed) + [more[n]];
        assert kept[..|kept| - 1] == Within(more[..n], allowed);
      }
    }
  }

  /** Merging what is limited gives the merged host, if it is allowed. */
  lemma {:induction false} LimitedHost(datasets: Loaded, allowed: set<string>, limited: Loaded, ids: seq<string>, h: string)
    requires AllLimited(datasets, allowed, limited)
    requires forall id | id in ids :: id in datasets
    ensures MergedHost(limited, ids, h) == if h in allowed then MergedHost(datasets, ids, h) else None
  {
    if ids != [] {
      LimitedHost(datasets, allowed, limited, ids[..|ids| - 1], h);
      assert IsLimited(datasets[ids[|ids| - 1]], allowed, limited[ids[|ids| - 1]]);
    }
  }

  function Restricted(group: Option<Group>, allowed: set<string>): Option<Group> {
    if group.None? then None else Some(group.value.(hosts := Within(group.value.hosts, allowed)))
  }

  lemma {:induction false} LimitedGroup(datasets: Loaded, allowed: set<string>, limited: Loaded, ids: seq<string>, n: string)
    requires AllLimited(datasets, allowed, limited)
    requires forall id | id in ids :: id in datasets
    ensures MergedGroup(limited, ids, n) == Restricted(MergedGroup(datasets, ids, n), allowed)
  {
    if ids != [] {
      var k := |ids| - 1;
      LimitedGroup(datasets, allowed, limited, ids[..k], n);
      assert IsLimited(datasets[ids[k]], allowed, limited[ids[k]]);
      var sofar := MergedGroup(datasets, ids[..k], n);
      if n in datasets[ids[k]].groups {
        WithinAppendNew(if sofar.Some? then sofar.value.hosts else [], datasets[ids[k]].groups[n].hosts, allowed);
      }
    }
  }

  lemma {:induction false} DropsOnce(vars: HostVars, paths: seq<string>, a: HostVars, b: HostVars)
    requires Drops(vars, paths, a) && Drops(vars, paths, b)
    ensures a == b
  {
    DropOrderIsIrrelevant(vars, paths, paths, a, b);
  }

  /** Shaping has one result. */
  lemma {:induction false} ShapedOnce(settings: Settings, vars: HostVars, a: HostVars, b: HostVars)
    requires Shaped(settings, vars, a) && Shaped(settings, vars, b)
    ensures a == b
  {
    hide Keeps, Drops;
    var k :| (if settings.fields == [] then k == vars else Keeps(vars, settings.fields, k)) && Drops(k, settings.exclude, a);
    var l :| (if settings.fields == [] then l == vars else Keeps(vars, settings.fields, l)) && Drops(l, settings.exclude, b);
    if settings.fields != [] {
      KeepOrderIsIrrelevant(vars, settings.fields, settings.fields, k, l);
    }
    DropsOnce(k, settings.exclude, a, b);
  }

  /** What is merged from limited datasets is what is merged, restricted. */
  ghost predicate MergedAlike(allowed: set<string>, merged: map<string, HostVars>, groups: map<string, Group>,
                              less: map<string, HostVars>, fewer: map<string, Group>) {
    && (forall h :: Find(less, h) == if h in allowed then Find(merged, h) else None)
    && (forall n :: Find(fewer, n) == Restricted(Find(groups, n), allowed))
  }

  lemma {:induction false} LimitedMerge(datasets: Loaded, allowed: set<string>, limited: Loaded,
                     merged: map<string, HostVars>, groups: map<string, Group>,
                     less: map<string, HostVars>, fewer: map<string, Group>)
    requires AllLimited(datasets, allowed, limited)
    requires IsMerged(datasets, Listing(datasets.Keys), merged, groups)
    requires IsMerged(limited, Listing(limited.Keys), less, fewer)
    ensures MergedAlike(allowed, merged, groups, less, fewer)
  {
    hide MergedHost, MergedGroup, Find, IsLimited;
    var ids := Listing(datasets.Keys);
    forall h
      ensures Find(less, h) == if h in allowed then Find(merged, h) else None
    {
      LimitedHost(datasets, allowed, limited, ids, h);
      assert Find(less, h) == MergedHost(limited, ids, h);
      assert Find(merged, h) == MergedHost(datasets, ids, h);
    }
    forall n
      ensures Find(fewer, n) == Restricted(Find(groups, n), allowed)
    {
      LimitedGroup(datasets, allowed, limited, ids, n);
      assert Find(fewer, n) == MergedGroup(limited, ids, n);
      assert Find(groups, n) == MergedGroup(datasets, ids, n);
    }
  }

  /** An allowed host passes the filters with the limit exactly when it does without. */
  lemma {:induction false} PassesAlike(settings: Settings, allowed: set<string>, merged: map<string, HostVars>, groups: map<string, Group>,
                    less: map<string, HostVars>, fewer: map<string, Group>, h: string)
    requires MergedAlike(allowed, merged, groups, less, fewer)
    ensures h in less <==> h in allowed && h in merged
    ensures h in less ==> less[h] == merged[h]
    ensures h in less ==> (Passes(settings, fewer, h, less[h]) <==> Passes(settings, groups, h, merged[h]))
  {
    assert Find(less, h) == if h in allowed then Find(merged, h) else None;
    if h in allowed {
      forall n
        ensures n in fewer && h in fewer[n].hosts <==> n in groups && h in groups[n].hosts
      {
        assert Find(fewer, n) == Restricted(Find(groups, n), allowed);
      }
    }
  }

  /** For every filter, group list, field list and set of sources: the hosts of the
      limited answer are the hosts of the whole answer that are allowed, with the
      same variables. */
  lemma {:induction false} LimitCommutesOnHosts(datasets: Loaded, allowed: set<string>, limited: Loaded, settings: Settings,
                             hostvars: map<string, HostVars>, groups: map<string, Group>,
                             lessVars: map<string, HostVars>, fewerGroups: map<string, Group>)
    requires AllLimited(datasets, allowed, limited)
    requires IsAnswer(datasets, settings, hostvars, groups)
    requires IsAnswer(limited, settings, lessVars, fewerGroups)
    ensures lessVars == map h | h in hostvars && h in allowed :: hostvars[h]
  {
    hide AllLimited, IsMerged, Passes, Shaped, GroupsAnswer, MergedAlike;
    if settings.filter.Some? {
      var merged: map<string, HostVars>, mergedGroups: map<string, Group> :|
        IsMerged(datasets, Listing(datasets.Keys), merged, mergedGroups) && HostsAnswer(settings, merged, mergedGroups, hostvars);
      var less: map<string, HostVars>, fewer: map<string, Group> :|
        IsMerged(limited, Listing(limited.Keys), less, fewer) && HostsAnswer(settings, less, fewer, lessVars);
      LimitedMerge(datasets, allowed, limited, merged, mergedGroups, less, fewer);
      forall h
        ensures h in lessVars <==> h in hostvars && h in allowed
        ensures h in lessVars ==> lessVars[h] == hostvars[h]
      {
        PassesAlike(settings, allowed, merged, mergedGroups, less, fewer, h);
        if h in lessVars {
          ShapedOnce(settings, merged[h], lessVars[h], hostvars[h]);
        }
      }
    }
  }

  lemma {:induction false} WithinTwice(names: seq<string>, a: set<string>, b: set<string>)
    ensures Within(Within(names, a), b) == Within(names, a * b)
  {
    if names != [] {
      var n := |names| - 1;
      WithinTwice(names[..n], a, b);
      WithinSnoc(Within(names[..n], a), names[n], b);
    }
  }

  /** A group that is in both answers lists, with the limit, its hosts of the whole
      answer that are allowed, and says the same otherwise. */
  lemma {:induction false} LimitTrimsGroups(datasets: Loaded, allowed: set<string>, limited: Loaded, settings: Settings,
                         hostvars: map<string, HostVars>, groups: map<string, Group>,
                         lessVars: map<string, HostVars>, fewerGroups: map<string, Group>, n: string)
    requires AllLimited(datasets, allowed, limited)
    requires IsAnswer(datasets, settings, hostvars, groups)
    requires IsAnswer(limited, settings, lessVars, fewerGroups)
    requires n in groups && n in fewerGroups
    ensures fewerGroups[n] == groups[n].(hosts := Within(groups[n].hosts, allowed))
  {
    hide AllLimited, IsMerged, HostsAnswer, MergedAlike, Drops, Within, Stays, Listing, Allowed;
    var merged: map<string, HostVars>, mergedGroups: map<string, Group> :|
      && IsMerged(datasets, Listing(datasets.Keys), merged, mergedGroups)
      && HostsAnswer(settings, merged, mergedGroups, hostvars)
      && GroupsAnswer(settings, mergedGroups, hostvars.Keys, groups);
    var less: map<string, HostVars>, fewer: map<string, Group> :|
      && IsMerged(limited, Listing(limited.Keys), less, fewer)
      && HostsAnswer(settings, less, fewer, lessVars)
      && GroupsAnswer(settings, fewer, lessVars.Keys, fewerGroups);
    LimitedMerge(datasets, allowed, limited, merged, mergedGroups, less, fewer);
    LimitCommutesOnHosts(datasets, allowed, limited, settings, hostvars, groups, lessVars, fewerGroups);
    GroupAlike(allowed, merged, mergedGroups, less, fewer, n);
    var was := mergedGroups[n];
    WithinTwice(was.hosts, allowed, lessVars.Keys);
    WithinTwice(was.hosts, hostvars.Keys, allowed);
    assert allowed * lessVars.Keys == hostvars.Keys * allowed;
    if was.vars.Some? {
      DropsOnce(was.vars.value, settings.exclude, groups[n].vars.value, fewerGroups[n].vars.value);
    }
  }

  /** Some variable of the group is not excluded. */
  ghost predicate VarsLeft(settings: Settings, vars: Option<HostVars>) {
    vars.Some? && exists rest :: Drops(vars.value, settings.exclude, rest) && rest != map[]
  }

  /** Whether a merged group stays, by what it lists and who survives. */
  ghost predicate StaysWith(settings: Settings, was: Group, survivors: set<string>) {
    || was.children != []
    || if was.hosts != [] then Within(was.hosts, survivors) != [] else VarsLeft(settings, was.vars)
  }

  lemma {:induction false} StaysIff(settings: Settings, was: Group, survivors: set<string>, now: Group)
    requires Trimmed(settings, was, survivors, now)
    ensures Stays(was, now) <==> StaysWith(settings, was, survivors)
  {
    hide Drops, Within;
    if was.vars.Some? && VarsLeft(settings, was.vars) {
      var rest :| Drops(was.vars.value, settings.exclude, rest) && rest != map[];
      DropsOnce(was.vars.value, settings.exclude, rest, now.vars.value);
    }
  }

  lemma {:induction false} InAnswerIff(settings: Settings, groups: map<string, Group>, survivors: set<string>,
                                       out: map<string, Group>, n: string)
    requires GroupsAnswer(settings, groups, survivors, out)
    ensures n in out <==> n in groups && StaysWith(settings, groups[n], survivors)
  {
    hide Trimmed, Stays, StaysWith;
    if n in out {
      StaysIff(settings, groups[n], survivors, out[n]);
    } else if n in groups {
      var now :| Trimmed(settings, groups[n], survivors, now) && !Stays(groups[n], now);
      StaysIff(settings, groups[n], survivors, now);
    }
  }

  /** Exactly when a group is in the answer, without the limit and with it, in terms of
      the group as merged: the limit takes hosts from its list before the answer asks
      whether it ever had any. */
  lemma {:induction false} LimitKeepsGroupIff(datasets: Loaded, allowed: set<string>, limited: Loaded, settings: Settings,
                                              hostvars: map<string, HostVars>, groups: map<string, Group>,
                                              lessVars: map<string, HostVars>, fewerGroups: map<string, Group>, n: string)
    requires AllLimited(datasets, allowed, limited) && settings.filter.Some?
    requires IsAnswer(datasets, settings, hostvars, groups)
    requires IsAnswer(limited, settings, lessVars, fewerGroups)
    ensures var group := MergedGroup(datasets, Listing(datasets.Keys), n);
            && (n in groups <==> group.Some? && StaysWith(settings, group.value, hostvars.Keys))
            && (n in fewerGroups <==> group.Some? && StaysWith(settings, Restricted(group, allowed).value, hostvars.Keys * allowed))
  {
    hide AllLimited, IsMerged, HostsAnswer, GroupsAnswer, MergedAlike, StaysWith, Restricted, Listing;
    var merged: map<string, HostVars>, mergedGroups: map<string, Group> :|
      && IsMerged(datasets, Listing(datasets.Keys), merged, mergedGroups)
      && HostsAnswer(settings, merged, mergedGroups, hostvars)
      && GroupsAnswer(settings, mergedGroups, hostvars.Keys, groups);
    var less: map<string, HostVars>, fewer: map<string, Group> :|
      && IsMerged(limited, Listing(limited.Keys), less, fewer)
      && HostsAnswer(settings, less, fewer, lessVars)
      && GroupsAnswer(settings, fewer, lessVars.Keys, fewerGroups);
    LimitedMerge(datasets, allowed, limited, merged, mergedGroups, less, fewer);
    LimitCommutesOnHosts(datasets, allowed, limited, settings, hostvars, groups, lessVars, fewerGroups);
    assert lessVars.Keys == hostvars.Keys * allowed;
    InAnswerIff(settings, mergedGroups, hostvars.Keys, groups, n);
    InAnswerIff(settings, fewer, lessVars.Keys, fewerGroups, n);
    MergedAt(datasets, merged, mergedGroups, n);
    RestrictedAt(allowed, merged, mergedGroups, less, fewer, n);
  }

  lemma {:induction false} MergedAt(datasets: Loaded, merged: map<string, HostVars>, groups: map<string, Group>, n: string)
    requires IsMerged(datasets, Listing(datasets.Keys), merged, groups)
    ensures MergedGroup(datasets, Listing(datasets.Keys), n) == if n in groups then Some(groups[n]) else None
  {
    assert Find(groups, n) == MergedGroup(datasets, Listing(datasets.Keys), n);
  }

  lemma {:induction false} RestrictedAt(allowed: set<string>, merged: map<string, HostVars>, groups: map<string, Group>,
                                        less: map<string, HostVars>, fewer: map<string, Group>, n: string)
    requires MergedAlike(allowed, merged, groups, less, fewer)
    ensures n in fewer <==> n in groups
    ensures n in groups ==> Restricted(Some(groups[n]), allowed) == Some(fewer[n])
  {
    assert Find(fewer, n) == Restricted(Find(groups, n), allowed);
  }

  lemma {:induction false} GroupAlike(allowed: set<string>, merged: map<string, HostVars>, groups: map<string, Group>,
                   less: map<string, HostVars>, fewer: map<string, Group>, n: string)
    requires MergedAlike(allowed, merged, groups, less, fewer)
    requires n in groups && n in fewer
    ensures fewer[n] == groups[n].(hosts := Within(groups[n].hosts, allowed))
  {
    assert Find(fewer, n) == Restricted(Find(groups, n), allowed);
  }

  /** Merged, a variable has the value of the last source, by id, that gives it. */
  lemma {:induction false} LaterSourcesWin(datasets: Loaded, ids: seq<string>, h: string, key: string, i: nat)
    requires forall id | id in ids :: id in datasets
    requires i < |ids| && h in datasets[ids[i]].hostvars && key in datasets[ids[i]].hostvars[h]
    requires forall j | i < j < |ids| :: h in datasets[ids[j]].hostvars ==> key !in datasets[ids[j]].hostvars[h]
    ensures MergedHost(datasets, ids, h).Some? && key in MergedHost(datasets, ids, h).value
    ensures MergedHost(datasets, ids, h).value[key] == datasets[ids[i]].hostvars[h][key]
  {
    var n := |ids| - 1;
    if i < n {
      LaterSourcesWin(datasets, ids[..n], h, key, i);
    }
  }

  lemma {:induction false} AppendNewHolds(names: seq<string>, more: seq<string>)
    ensures forall n :: n in AppendNew(names, more) <==> n in names || n in more
    ensures Distinct(names) ==> Distinct(AppendNew(names, more))
    ensures names <= AppendNew(names, more)
  {
    if more != [] {
      var k := |more| - 1;
      AppendNewHolds(names, more[..k]);
      assert more == more[..k] + [more[k]];
    }
  }

  /** Some source lists the host, or the child, in a group of that name. */
  predicate ListedBySome(datasets: Loaded, ids: seq<string>, name: string, member: string, asHost: bool)
    requires forall id | id in ids :: id in datasets
  {
    exists id | id in ids :: name in datasets[id].groups
      && member in (if asHost then datasets[id].groups[name].hosts else datasets[id].groups[name].children)
  }

  /** A merged group lists each host and each child that some source's does, once. */
  lemma {:induction false} MergedGroupIsUnion(datasets: Loaded, ids: seq<string>, name: string, member: string)
    requires forall id | id in ids :: id in datasets
    ensures MergedGroup(datasets, ids, name).Some? <==> exists id | id in ids :: name in datasets[id].groups
    ensures MergedGroup(datasets, ids, name).Some? ==>
              var group := MergedGroup(datasets, ids, name).value;
              && Distinct(group.hosts) && Distinct(group.children)
              && (member in group.hosts <==> ListedBySome(datasets, ids, name, member, true))
              && (member in group.children <==> ListedBySome(datasets, ids, name, member, false))
  {
    hide AppendNew;
    if ids != [] {
      var k := |ids| - 1;
      MergedGroupIsUnion(datasets, ids[..k], name, member);
      assert ids == ids[..k] + [ids[k]];
      var groups := datasets[ids[k]].groups;
      if name in groups {
        var sofar := MergedGroup(datasets, ids[..k], name);
        var was := if sofar.Some? then sofar.value else EMPTY_GROUP;
        AppendNewHolds(was.hosts, groups[name].hosts);
        AppendNewHolds(was.children, groups[name].children);
      }
    }
  }

  /** The source gives the group that variable. */
  predicate GivesVar(datasets: Loaded, id: string, name: string, key: string) {
    && id in datasets && name in datasets[id].groups
    && datasets[id].groups[name].vars.Some? && key in datasets[id].groups[name].vars.value
  }

  /** A merged group has variables when some source gives it any, and a variable when some
      source gives it that one. */
  lemma {:induction false} MergedGroupVars(datasets: Loaded, ids: seq<string>, name: string, key: string)
    requires forall id | id in ids :: id in datasets
    requires MergedGroup(datasets, ids, name).Some?
    ensures var vars := MergedGroup(datasets, ids, name).value.vars;
            && (vars.Some? <==> exists id | id in ids :: name in datasets[id].groups && datasets[id].groups[name].vars.Some?)
            && (vars.Some? && key in vars.value <==> exists id | id in ids :: GivesVar(datasets, id, name, key))
  {
    hide AppendNew;
    var k := |ids| - 1;
    var earlier := ids[..k];
    assert forall id :: id in ids <==> id in earlier || id == ids[k];
    if MergedGroup(datasets, earlier, name).Some? {
      MergedGroupVars(datasets, earlier, name, key);
    } else {
      MergedGroupIsUnion(datasets, earlier, name, "");
      assert name in datasets[ids[k]].groups;
    }
    assert GivesVar(datasets, ids[k], name, key) ==> ids[k] in ids;
  }

  /** It has the value of the last source, by id, that gives it. */
  lemma {:induction false} LaterSourcesWinOnGroups(datasets: Loaded, ids: seq<string>, name: string, key: string, i: nat)
    requires forall id | id in ids :: id in datasets
    requires i < |ids| && GivesVar(datasets, ids[i], name, key)
    requires forall j | i < j < |ids| :: !GivesVar(datasets, ids[j], name, key)
    ensures var group := MergedGroup(datasets, ids, name);
            && group.Some? && group.value.vars.Some? && key in group.value.vars.value
            && group.value.vars.value[key] == datasets[ids[i]].groups[name].vars.value[key]
  {
    hide AppendNew;
    var n := |ids| - 1;
    if i < n {
      LaterSourcesWinOnGroups(datasets, ids[..n], name, key, i);
      assert !GivesVar(datasets, ids[n], name, key);
    }
  }

  /** A merged host and each of its variables come from some source. */
  lemma {:induction false} MergedHostComesFromSources(datasets: Loaded, ids: seq<string>, h: string, key: string)
    requires forall id | id in ids :: id in datasets
    ensures MergedHost(datasets, ids, h).Some? <==> exists id | id in ids :: h in datasets[id].hostvars
    ensures MergedHost(datasets, ids, h).Some? && key in MergedHost(datasets, ids, h).value
       <==> exists id | id in ids :: h in datasets[id].hostvars && key in datasets[id].hostvars[h]
  {
    if ids != [] {
      var k := |ids| - 1;
      MergedHostComesFromSources(datasets, ids[..k], h, key);
      assert ids == ids[..k] + [ids[k]];
    }
  }

  /** The limit of an endpoint, end to end: the hosts of the limited answer are those of
      the whole answer that the limiting source lists, with the same variables; none, if
      that source is not there; and all, without a limit. */
  lemma {:induction false} EndpointLimitRestrictsHosts(datasets: Loaded, limit: Option<string>, limited: Loaded, settings: Settings,
                                                       hostvars: map<string, HostVars>, groups: map<string, Group>,
                                                       lessVars: map<string, HostVars>, fewerGroups: map<string, Group>, host: string)
    requires if limit.Some? then AllLimited(datasets, Allowed(datasets, limit.value), limited) else limited == datasets
    requires IsAnswer(datasets, settings, hostvars, groups)
    requires IsAnswer(limited, settings, lessVars, fewerGroups)
    ensures host in lessVars <==>
            host in hostvars && (limit.Some? ==> limit.value in datasets && host in datasets[limit.value].hostvars)
    ensures host in lessVars ==> lessVars[host] == hostvars[host]
  {
    hide IsAnswer, AllLimited;
    if limit.Some? {
      LimitCommutesOnHosts(datasets, Allowed(datasets, limit.value), limited, settings, hostvars, groups, lessVars, fewerGroups);
    } else {
      AnsweredOnce(datasets, settings, hostvars, groups, lessVars, fewerGroups);
    }
  }

  /** An answer has one set of hosts. */
  lemma {:induction false} AnsweredOnce(datasets: Loaded, settings: Settings, a: map<string, HostVars>, groups: map<string, Group>,
                                        b: map<string, HostVars>, others: map<string, Group>)
    requires IsAnswer(datasets, settings, a, groups) && IsAnswer(datasets, settings, b, others)
    ensures a == b
  {
    hide IsMerged, Passes, Shaped, GroupsAnswer;
    if settings.filter.Some? {
      var merged: map<string, HostVars>, mergedGroups: map<string, Group> :|
        IsMerged(datasets, Listing(datasets.Keys), merged, mergedGroups) && HostsAnswer(settings, merged, mergedGroups, a);
      var same: map<string, HostVars>, sameGroups: map<string, Group> :|
        IsMerged(datasets, Listing(datasets.Keys), same, sameGroups) && HostsAnswer(settings, same, sameGroups, b);
      MergedOnce(datasets, merged, mergedGroups, same, sameGroups);
      forall h | h in a
        ensures a[h] == b[h]
      {
        ShapedOnce(settings, merged[h], a[h], b[h]);
      }
      assert a == b;
    }
  }

  lemma {:induction false} MergedOnce(datasets: Loaded, a: map<string, HostVars>, groups: map<string, Group>,
                                      b: map<string, HostVars>, others: map<string, Group>)
    requires IsMerged(datasets, Listing(datasets.Keys), a, groups) && IsMerged(datasets, Listing(datasets.Keys), b, others)
    ensures a == b && groups == others
  {
    hide MergedHost, MergedGroup;
    forall h
      ensures h in a <==> h in b
      ensures h in a ==> a[h] == b[h]
    {
      assert Find(a, h) == MergedHost(datasets, Listing(datasets.Keys), h) == Find(b, h);
    }
    forall n
      ensures n in groups <==> n in others
      ensures n in groups ==> groups[n] == others[n]
    {
      assert Find(groups, n) == MergedGroup(datasets, Listing(datasets.Keys), n) == Find(others, n);
    }
  }

  // ----- an answer, in terms of the sources -----

  /** A host is in the answer exactly when some source has it, it is in one of the asked
      groups according to some source (if groups were asked for), and the filter keeps it
      with its merged variables. */
  lemma {:induction false} WhoIsAnswered(datasets: Loaded, settings: Settings, hostvars: map<string, HostVars>,
                                         groups: map<string, Group>, host: string)
    requires IsAnswer(datasets, settings, hostvars, groups)
    ensures var vars := MergedHost(datasets, Listing(datasets.Keys), host);
            host in hostvars <==>
              && settings.filter.Some? && vars.Some? && settings.filter.value(host, vars.value)
              && (settings.groups.Some? ==>
                    exists id, name | id in datasets && name in settings.groups.value ::
                      name in datasets[id].groups && host in datasets[id].groups[name].hosts)
  {
    hide Shaped, GroupsAnswer, IsMerged, MergedHost, MergedGroup;
    if settings.filter.Some? {
      var merged: map<string, HostVars>, mergedGroups: map<string, Group> :|
        IsMerged(datasets, Listing(datasets.Keys), merged, mergedGroups) && HostsAnswer(settings, merged, mergedGroups, hostvars);
      HostAsMerged(datasets, merged, mergedGroups, host);
      forall name
        ensures name in mergedGroups && host in mergedGroups[name].hosts <==>
                exists id | id in datasets :: name in datasets[id].groups && host in datasets[id].groups[name].hosts
      {
        ListedInMerged(datasets, merged, mergedGroups, name, host);
      }
    }
  }

  lemma {:induction false} HostAsMerged(datasets: Loaded, merged: map<string, HostVars>, groups: map<string, Group>, host: string)
    requires IsMerged(datasets, Listing(datasets.Keys), merged, groups)
    ensures MergedHost(datasets, Listing(datasets.Keys), host) == if host in merged then Some(merged[host]) else None
  {
    assert Find(merged, host) == MergedHost(datasets, Listing(datasets.Keys), host);
  }

  lemma {:induction false} ListedInMerged(datasets: Loaded, merged: map<string, HostVars>, groups: map<string, Group>,
                                          name: string, host: string)
    requires IsMerged(datasets, Listing(datasets.Keys), merged, groups)
    ensures name in groups && host in groups[name].hosts <==>
            exists id | id in datasets :: name in datasets[id].groups && host in datasets[id].groups[name].hosts
  {
    hide MergedGroup, IsMerged;
    var ids := Listing(datasets.Keys);
    MergedAt(datasets, merged, groups, name);
    MergedGroupIsUnion(datasets, ids, name, host);
    if id :| id in datasets && name in datasets[id].groups && host in datasets[id].groups[name].hosts {
      assert id in ids;
    }
  }

  /** An answered host has the variable of a plain name exactly when it has it merged, it
      is among the fields asked for (if any), and it is not excluded; then with the value
      merged, less what is excluded below it. */
  lemma {:induction false} PlainFieldAnswered(settings: Settings, vars: HostVars, out: HostVars, key: string)
    requires Shaped(settings, vars, out)
    requires (forall k | k in vars :: '.' !in k) && '.' !in key
    requires forall p | p in settings.fields :: '.' !in p
    ensures key in out <==> key in vars && (settings.fields == [] || key in settings.fields) && key !in settings.exclude
    ensures key in out ==> Prunes(out[key], vars[key])
    ensures key in out && (forall p | p in settings.exclude :: '.' !in p) ==> out[key] == vars[key]
  {
    hide Keeps, Drops;
    var kept :| (if settings.fields == [] then kept == vars else Keeps(vars, settings.fields, kept)) && Drops(kept, settings.exclude, out);
    if settings.fields != [] {
      PlainKept(vars, settings.fields, kept, key);
      KeptIsAPruning(vars, settings.fields, kept);
    }
    PlainDropped(kept, settings.exclude, out, key);
  }

  lemma {:induction false} KeptIsAPruning(vars: HostVars, fields: seq<string>, kept: HostVars)
    requires Keeps(vars, fields, kept) && forall k | k in vars :: '.' !in k
    ensures forall k | k in kept :: k in vars && '.' !in k
  {
    forall k | k in kept
      ensures k in vars && '.' !in k
    {
      KeyPresent(kept, k);
      KeyPresent(vars, k);
      assert Present(Obj(kept), [k]);
    }
  }

  lemma {:induction false} PlainKept(vars: HostVars, fields: seq<string>, kept: HostVars, key: string)
    requires Keeps(vars, fields, kept) && forall p | p in fields :: '.' !in p
    ensures key in kept <==> key in vars && key in fields
    ensures key in kept ==> kept[key] == vars[key]
  {
    KeyPresent(kept, key);
    KeyPresent(vars, key);
    assert key in kept <==> Present(Obj(kept), [key]);
    forall p | p in fields
      ensures PlaceOf(vars, p) == [p]
    {
      SplitInverse(p);
    }
    assert OnKept(vars, fields, [key]) && key in vars ==> key in fields by {
      if p :| p in fields && ([key] <= PlaceOf(vars, p) || PlaceOf(vars, p) <= [key]) {
        assert PlaceOf(vars, p) == [p] && [key][0] == [p][0];
      }
    }
    if key in fields && key in vars {
      KeptPlaceIsWhole(vars, fields, kept, key);
    }
  }

  lemma {:induction false} PlainDropped(vars: HostVars, exclude: seq<string>, rest: HostVars, key: string)
    requires Drops(vars, exclude, rest) && '.' !in key && forall k | k in vars :: '.' !in k
    ensures key in rest <==> key in vars && key !in exclude
    ensures key in rest ==> Prunes(rest[key], vars[key])
    ensures key in rest && (forall p | p in exclude :: '.' !in p) ==> rest[key] == vars[key]
  {
    KeyPresent(rest, key);
    KeyPresent(vars, key);
    assert key in rest <==> Present(Obj(rest), [key]);
    if key in vars {
      GoneKey(vars, exclude, key);
    }
    if key in rest {
      PruningHasPlaces(Obj(rest), Obj(vars), [key]);
      if forall p | p in exclude :: '.' !in p {
        forall p | p in exclude
          ensures Split(p) == [p] && p != key
        {
          SplitInverse(p);
        }
        assert Unrelated(vars, exclude, [key]) by {
          forall p | p in exclude
            ensures !([p] <= [key]) && !([key] <= [p])
          {
            assert [p][0] != [key][0];
          }
        }
        DropLeavesUnrelatedAlone(vars, exclude, rest, [key]);
      }
    }
  }

  /** A group in the answer lists the answered hosts it has merged, in order, and has the
      children it has merged; of its variables it has what is not excluded. */
  lemma {:induction false} WhatAGroupAnswers(datasets: Loaded, settings: Settings, hostvars: map<string, HostVars>,
                                             groups: map<string, Group>, n: string)
    requires IsAnswer(datasets, settings, hostvars, groups) && n in groups
    ensures var group := MergedGroup(datasets, Listing(datasets.Keys), n);
            && group.Some?
            && groups[n].hosts == Within(group.value.hosts, hostvars.Keys)
            && groups[n].children == group.value.children
            && (groups[n].vars.Some? <==> group.value.vars.Some?)
            && (groups[n].vars.Some? ==> Drops(group.value.vars.value, settings.exclude, groups[n].vars.value))
  {
    hide HostsAnswer, GroupsAnswer, IsMerged, Drops, Within, Stays, Listing, MergedGroup;
    var merged: map<string, HostVars>, mergedGroups: map<string, Group> :|
      IsMerged(datasets, Listing(datasets.Keys), merged, mergedGroups)
      && GroupsAnswer(settings, mergedGroups, hostvars.Keys, groups);
    AnswerAsMerged(settings, mergedGroups, hostvars.Keys, groups, n);
    MergedAt(datasets, merged, mergedGroups, n);
  }

  lemma {:induction false} AnswerAsMerged(settings: Settings, groups: map<string, Group>, survivors: set<string>,
                                          out: map<string, Group>, n: string)
    requires GroupsAnswer(settings, groups, survivors, out) && n in out
    ensures n in groups && Trimmed(settings, groups[n], survivors, out[n])
  {
    hide Trimmed, Stays;
  }
}
