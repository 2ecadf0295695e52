/** The inventory a connector returns (src/domain/dataset.rs): host variables
    and groups. The conversion from Ansible inventory JSON is in Inventory. */
module Datasets {
  import opened Json

  datatype Group = Group(hosts: seq<string>, children: seq<string>, vars: Option<HostVars>)

  /** A group nobody described yet. */
  const EMPTY_GROUP := Group([], [], None)

  datatype Dataset = Dataset(
    hostvars: map<string, HostVars>,
    groups: map<string, Group>,
    removeHosts: seq<string>)

  /** No variables, or an empty map of them. */
  predicate NoVars(vars: Option<HostVars>) {
    vars == None || vars == Some(map[])
  }

  /** Ansible's implicit groups, whose membership nobody states or revokes. */
  predicate IsMetaGroup(name: string) {
    name == "all" || name == "ungrouped"
  }

  /** The list without any occurrence of `host`. */
  function Without(hosts: seq<string>, host: string): (r: seq<string>)
    ensures forall h :: h in r <==> h in hosts && h != host
  {
    if hosts == [] then []
    else
      var rest := Without(hosts[1..], host);
      if hosts[0] == host then rest else [hosts[0]] + rest
  }

  /** The list with `host` in it, added at the end if it was missing. */
  function Including(hosts: seq<string>, host: string): seq<string> {
    if host in hosts then hosts else hosts + [host]
  }

  /** The group of that name, or an empty one. */
  function GroupOr(groups: map<string, Group>, name: string): Group {
    if name in groups then groups[name] else EMPTY_GROUP
  }

  /** The groups a host is listed in. */
  function GroupsOf(groups: map<string, Group>, host: string): set<string> {
    set name | name in groups && host in groups[name].hosts
  }

  /** What a full sync adds: a host named only in a group has no variables,
      but it is a host (src/domain/dataset.rs:163-178). */
  function WithGroupMembers(d: Dataset): Dataset {
    var members := set name, h | name in d.groups && h in d.groups[name].hosts :: h;
    d.(hostvars := (map h | h in members :: map[]) + d.hostvars)
  }

  /** Taking a host out of a list keeps the order and the repetitions of the others. */
  lemma {:induction false} WithoutKeepsOrder(first: seq<string>, second: seq<string>, host: string)
    ensures Without(first + second, host) == Without(first, host) + Without(second, host)
  {
    if first == [] {
      assert first + second == second;
    } else {
      assert (first + second)[1..] == first[1..] + second;
      WithoutKeepsOrder(first[1..], second, host);
    }
  }

  /** And a single name goes only if it is the one. */
  lemma WithoutOfOne(x: string, host: string)
    ensures Without([x], host) == if x == host then [] else [x]
  {
  }
}
