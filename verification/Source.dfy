/** A source's configuration, as far as freshness and cache writes depend on it,
    and which TTL applies to which host (src/domain/source.rs:645-702). */
module Sources {
  import opened Json
  import opened Datasets

  datatype SyncMode = Replace | Merge

  /** TTLs are whole seconds. */
  datatype Source = Source(
    ttlSeconds: nat,
    hostTtls: map<string, nat>,
    groupTtls: map<string, nat>,
    syncMode: SyncMode,
    hostSyncUpdatesGroupVars: bool)

  /** The TTLs that the overrides of some groups put on a host. */
  function TtlsAmong(names: set<string>, source: Source, d: Dataset, host: string): set<nat> {
    set name | name in names && name in source.groupTtls && name in d.groups
               && host in d.groups[name].hosts :: source.groupTtls[name]
  }

  function GroupTtls(source: Source, d: Dataset, host: string): set<nat> {
    TtlsAmong(source.groupTtls.Keys, source, d, host)
  }

  /** The table holds, for each host, the least TTL those groups put on it. */
  ghost predicate HoldsShortest(table: map<string, nat>, names: set<string>, source: Source, d: Dataset) {
    forall host ::
      && (host in table <==> TtlsAmong(names, source, d, host) != {})
      && (host in table ==> IsLeast(table[host], TtlsAmong(names, source, d, host)))
  }

  predicate IsLeast(ttl: nat, ttls: set<nat>) {
    ttl in ttls && forall t | t in ttls :: ttl <= t
  }

  method GroupTtlByHost(source: Source, d: Dataset) returns (byHost: map<string, nat>)
    ensures HoldsShortest(byHost, source.groupTtls.Keys, source, d)
  {
    byHost := map[];
    var todo := source.groupTtls.Keys;
    ghost var seen: set<string> := {};
    while todo != {}
      invariant todo !! seen && todo + seen == source.groupTtls.Keys
      invariant HoldsShortest(byHost, seen, source, d)
      decreases todo
    {
      var name :| name in todo;
      var ttl := source.groupTtls[name];
      ghost var before := byHost;
      if name in d.groups {
        byHost := LowerTtls(byHost, d.groups[name].hosts, ttl);
      }
      OneMoreGroup(before, byHost, seen, name, source, d);
      todo, seen := todo - {name}, seen + {name};
    }
  }

  /** `after` is `before` with the TTL of every listed host at most `ttl`. */
  ghost predicate Lowered(before: map<string, nat>, after: map<string, nat>, hosts: seq<string>, ttl: nat) {
    && (forall h :: h in after <==> h in before || h in hosts)
    && forall h | h in after ::
         after[h] == if h !in hosts then before[h]
                     else if h in before && before[h] < ttl then before[h] else ttl
  }

  /** One group's pass over the table. */
  method LowerTtls(before: map<string, nat>, hosts: seq<string>, ttl: nat) returns (byHost: map<string, nat>)
    ensures Lowered(before, byHost, hosts, ttl)
  {
    byHost := before;
    for i := 0 to |hosts|
      invariant Lowered(before, byHost, hosts[..i], ttl)
    {
      var h := hosts[i];
      assert hosts[..i + 1] == hosts[..i] + [h];
      byHost := byHost[h := if h in byHost && byHost[h] < ttl then byHost[h] else ttl];
    }
    assert hosts[..|hosts|] == hosts;
  }

  lemma OneMoreGroup(before: map<string, nat>, after: map<string, nat>, seen: set<string>, name: string,
                     source: Source, d: Dataset)
    requires HoldsShortest(before, seen, source, d)
    requires name in source.groupTtls
    requires if name in d.groups then Lowered(before, after, d.groups[name].hosts, source.groupTtls[name])
             else after == before
    ensures HoldsShortest(after, seen + {name}, source, d)
  {
    forall host
      ensures host in after <==> TtlsAmong(seen + {name}, source, d, host) != {}
      ensures host in after ==> IsLeast(after[host], TtlsAmong(seen + {name}, source, d, host))
    {
      assert TtlsAmong(seen + {name}, source, d, host)
          == TtlsAmong(seen, source, d, host)
             + if name in d.groups && host in d.groups[name].hosts then {source.groupTtls[name]} else {};
      assert host in before <==> TtlsAmong(seen, source, d, host) != {};
    }
  }

  lemma {:induction false} LeastExists(ttls: set<nat>)
    requires ttls != {}
    ensures exists ttl :: IsLeast(ttl, ttls)
    decreases |ttls|
  {
    var x :| x in ttls;
    if ttls == {x} {
      assert IsLeast(x, ttls);
    } else {
      LeastExists(ttls - {x});
      var rest :| IsLeast(rest, ttls - {x});
      var least := if rest < x then rest else x;
      assert forall t | t in ttls :: t == x || t in ttls - {x};
      assert IsLeast(least, ttls);
    }
  }

  /** The TTL that governs a host: its own override, else the strictest of its
      groups', else the fallback. */
  ghost function EffectiveTtl(source: Source, d: Dataset, host: string, fallback: nat): (ttl: nat)
    ensures host in source.hostTtls ==> ttl == source.hostTtls[host]
    ensures host !in source.hostTtls && GroupTtls(source, d, host) != {}
            ==> IsLeast(ttl, GroupTtls(source, d, host))
    ensures host !in source.hostTtls && GroupTtls(source, d, host) == {} ==> ttl == fallback
  {
    if host in source.hostTtls then source.hostTtls[host]
    else if GroupTtls(source, d, host) == {} then fallback
    else
      LeastExists(GroupTtls(source, d, host));
      var ttl :| IsLeast(ttl, GroupTtls(source, d, host));
      ttl
  }

  /** The program's lookup in the precomputed table gives that TTL. */
  method LookupTtl(source: Source, d: Dataset, host: string, groupTtls: map<string, nat>, fallback: nat)
    returns (ttl: nat)
    requires HoldsShortest(groupTtls, source.groupTtls.Keys, source, d)
    ensures ttl == EffectiveTtl(source, d, host, fallback)
  {
    ttl := if host in source.hostTtls then source.hostTtls[host]
           else if host in groupTtls then groupTtls[host]
           else fallback;
  }

  /** A group with an override that lists the host. */
  predicate Overrides(source: Source, d: Dataset, host: string, name: string) {
    name in source.groupTtls && name in d.groups && host in d.groups[name].hosts
  }

  /** The TTL that the configuration puts on a host: its own override before all, else
      the strictest among those of its groups, else the default. */
  ghost predicate ConfiguredTtl(source: Source, d: Dataset, host: string, fallback: nat, ttl: nat) {
    if host in source.hostTtls then ttl == source.hostTtls[host]
    else if exists name :: Overrides(source, d, host, name) then
      && (exists name :: Overrides(source, d, host, name) && ttl == source.groupTtls[name])
      && (forall name | Overrides(source, d, host, name) :: ttl <= source.groupTtls[name])
    else ttl == fallback
  }

  /** There is one such TTL, and it is the one in effect. */
  lemma {:induction false} EffectiveIsConfigured(source: Source, d: Dataset, host: string, fallback: nat, ttl: nat)
    ensures ConfiguredTtl(source, d, host, fallback, ttl) <==> ttl == EffectiveTtl(source, d, host, fallback)
  {
    var ttls := GroupTtls(source, d, host);
    forall name
      ensures Overrides(source, d, host, name) ==> source.groupTtls[name] in ttls
    {
    }
    forall t | t in ttls
      ensures exists name :: Overrides(source, d, host, name) && t == source.groupTtls[name]
    {
      var name :| name in source.groupTtls && name in d.groups && host in d.groups[name].hosts && t == source.groupTtls[name];
      assert Overrides(source, d, host, name);
    }
    if ttls != {} {
      var t :| t in ttls;
    }
  }
}
