/** Views: which member owns a host, asked directly or through a routing table
    that is built on demand, and how requests are routed by it
    (src/domain/view.rs:108-164, src/application/views.rs:49-71, 241-318, 378-402). */
module Views {
  import opened Text
  import opened Json
  import opened Datasets

  /** The pattern a member owns hosts by, resolved against a source's dataset. */
  datatype Ownership = Ownership(groups: seq<string>, hosts: seq<string>)

  predicate IsCatchAll(o: Ownership) {
    o.groups == [] && o.hosts == []
  }

  predicate InSomeGroup(d: Dataset, host: string) {
    exists n | n in d.groups :: host in d.groups[n].hosts
  }

  /** The pattern claims the host: it names it, or a group of it that exists does;
      an empty pattern claims whatever the dataset knows. */
  predicate Claims(o: Ownership, d: Dataset, host: string) {
    if IsCatchAll(o) then host in d.hostvars || InSomeGroup(d, host)
    else host in o.hosts || exists n | n in o.groups :: n in d.groups && host in d.groups[n].hosts
  }

  /** The set form of the same rule. */
  method ClaimedHosts(o: Ownership, d: Dataset) returns (claimed: set<string>)
    ensures forall h :: h in claimed <==> Claims(o, d, h)
  {
    if IsCatchAll(o) {
      claimed := d.hostvars.Keys;
      var todo := d.groups.Keys;
      while todo != {}
        invariant todo <= d.groups.Keys
        invariant forall h :: h in claimed <==>
                    h in d.hostvars || exists n | n in d.groups && n !in todo :: h in d.groups[n].hosts
        decreases todo
      {
        var n :| n in todo;
        claimed, todo := claimed + Elements(d.groups[n].hosts), todo - {n};
      }
      return;
    }
    claimed := Elements(o.hosts);
    for i := 0 to |o.groups|
      invariant forall h :: h in claimed <==>
                  h in o.hosts || exists n | n in o.groups[..i] :: n in d.groups && h in d.groups[n].hosts
    {
      var n := o.groups[i];
      assert o.groups[..i + 1] == o.groups[..i] + [n];
      if n in d.groups {
        claimed := claimed + Elements(d.groups[n].hosts);
      }
    }
    assert o.groups[..|o.groups|] == o.groups;
  }

  /** One member: its own dataset, the dataset its pattern is resolved against, and
      the pattern, each if it is known. */
  datatype Member = Member(entry: Option<Dataset>, ownership: Option<Dataset>, owns: Option<Ownership>)

  /** With no pattern a member claims nothing; with no dataset, the hosts it names. */
  predicate MemberClaims(m: Member, host: string) {
    m.owns.Some?
    && if m.ownership.Some? then Claims(m.owns.value, m.ownership.value, host) else host in m.owns.value.hosts
  }

  method MemberClaimedHosts(m: Member) returns (claimed: set<string>)
    ensures forall h :: h in claimed <==> MemberClaims(m, h)
  {
    if m.owns.None? {
      claimed := {};
    } else if m.ownership.None? {
      claimed := Elements(m.owns.value.hosts);
    } else {
      claimed := ClaimedHosts(m.owns.value, m.ownership.value);
    }
  }

  predicate Has(m: Member, host: string) {
    m.entry.Some? && host in m.entry.value.hostvars
  }

  /** The first declared member that claims the host. */
  predicate IsOwner(members: seq<Member>, host: string, owner: Option<nat>) {
    match owner
    case None => forall i | 0 <= i < |members| :: !MemberClaims(members[i], host)
    case Some(i) =>
      i < |members| && MemberClaims(members[i], host) && forall j | 0 <= j < i :: !MemberClaims(members[j], host)
  }

  function OwnerOf(members: seq<Member>, host: string): (owner: Option<nat>)
    ensures IsOwner(members, host, owner)
  {
    if members == [] then None
    else
      var n := |members| - 1;
      var earlier := OwnerOf(members[..n], host);
      if earlier.Some? then earlier
      else if MemberClaims(members[n], host) then Some(n)
      else None
  }

  lemma OwnerIsUnique(members: seq<Member>, host: string, a: Option<nat>)
    requires IsOwner(members, host, a)
    ensures a == OwnerOf(members, host)
  {
  }

  /** The view serves the host: its owner has it. */
  predicate Serves(members: seq<Member>, host: string) {
    var owner := OwnerOf(members, host);
    owner.Some? && Has(members[owner.value], host)
  }

  /** Those of a list that this member owns, in order, repeats included. */
  function OwnedBy(members: seq<Member>, hosts: seq<string>, owner: Option<nat>): seq<string> {
    if hosts == [] then []
    else
      var earlier, last := OwnedBy(members, hosts[..|hosts| - 1], owner), hosts[|hosts| - 1];
      if OwnerOf(members, last) == owner then earlier + [last] else earlier
  }

  /** Each requested host is in its owner's list as often as in the request, and in
      no other. */
  lemma {:induction false} RoutingIsAPartition(members: seq<Member>, hosts: seq<string>, owner: Option<nat>, h: string)
    ensures multiset(OwnedBy(members, hosts, owner))[h] ==
            if OwnerOf(members, h) == owner then multiset(hosts)[h] else 0
    ensures forall k | 0 <= k < |OwnedBy(members, hosts, owner)| :: OwnedBy(members, hosts, owner)[k] in hosts
  {
    if hosts != [] {
      var n := |hosts| - 1;
      RoutingIsAPartition(members, hosts[..n], owner, h);
      assert hosts == hosts[..n] + [hosts[n]];
    }
  }

  /** The order of the request is kept. */
  lemma {:induction false} RoutingKeepsOrder(members: seq<Member>, first: seq<string>, second: seq<string>, owner: Option<nat>)
    ensures OwnedBy(members, first + second, owner) == OwnedBy(members, first, owner) + OwnedBy(members, second, owner)
  {
    if second == [] {
      assert first + second == first;
    } else {
      var n := |second| - 1;
      assert (first + second)[..|first| + n] == first + second[..n];
      RoutingKeepsOrder(members, first, second[..n], owner);
    }
  }

  /** What claiming means: a pattern that names nothing claims every host that a full
      sync would give its dataset; any other the hosts it names, and those of the groups
      it names that are there; and what is not loaded is claimed by name only. */
  lemma {:induction false} WhatIsClaimed(m: Member, host: string)
    requires m.owns.Some?
    ensures var o := m.owns.value;
            MemberClaims(m, host) <==>
              if m.ownership.None? then host in o.hosts
              else if |o.groups| == 0 && |o.hosts| == 0 then host in WithGroupMembers(m.ownership.value).hostvars
              else host in o.hosts || exists i | 0 <= i < |o.groups| :: host in GroupOr(m.ownership.value.groups, o.groups[i]).hosts
  {
    if m.ownership.Some? {
      var d := m.ownership.value;
      if n :| n in d.groups && host in d.groups[n].hosts {
        assert host in WithGroupMembers(d).hostvars;
      }
    }
  }

  /** A member without a pattern claims nothing. */
  lemma NoPatternNoClaim(m: Member, host: string)
    requires m.owns.None?
    ensures !MemberClaims(m, host)
  {
  }

  /** A host is served when the first member to claim it holds it itself, whatever others
      hold. */
  lemma {:induction false} WhatIsServed(members: seq<Member>, host: string)
    ensures Serves(members, host) <==>
            exists i | 0 <= i < |members| ::
              && MemberClaims(members[i], host) && (forall j | 0 <= j < i :: !MemberClaims(members[j], host))
              && members[i].entry.Some? && host in members[i].entry.value.hostvars
  {
    hide MemberClaims;
    if i: nat :| i < |members| && MemberClaims(members[i], host) && forall j | 0 <= j < i :: !MemberClaims(members[j], host) {
      OwnerIsUnique(members, host, Some(i));
      assert OwnerOf(members, host) == Some(i);
    }
  }

  /** The table says of every host what asking each member in turn does. */
  ghost predicate Indexes(table: map<string, nat>, members: seq<Member>) {
    forall h :: OwnerOf(members, h) == if h in table then Some(table[h]) else None
  }

  const ROUTING_TABLE_WORTH_IT: nat := 16

  /** Requested hosts under the index of the member that owns them. */
  datatype Routed = Routed(owner: nat, hosts: seq<string>)

  /** One entry per member that owns a requested host, in declared order, with its
      share of the request. */
  ghost predicate IsRouting(members: seq<Member>, hosts: seq<string>, routed: seq<Routed>) {
    && (forall k | 0 <= k < |routed| ::
          routed[k].owner < |members| && routed[k].hosts == OwnedBy(members, hosts, Some(routed[k].owner)) != [])
    && (forall j, k | 0 <= j < k < |routed| :: routed[j].owner < routed[k].owner)
    && (forall h | h in hosts :: exists k | 0 <= k < |routed| :: OwnerOf(members, h) == Some(routed[k].owner))
  }

  class ViewSnapshot {
    const members: seq<Member>
    var table: Option<map<string, nat>>

    constructor (members: seq<Member>)
      ensures this.members == members && Valid() && table == None
    {
      this.members := members;
      table := None;
    }

    ghost predicate Valid()
      reads this
    {
      table.Some? ==> Indexes(table.value, members)
    }

    /** Builds the table the first time, in declared order, the first claim staying. */
    method Routing() returns (routing: map<string, nat>)
      requires Valid()
      modifies this
      ensures Valid() && table == Some(routing)
      ensures old(table).Some? ==> table == old(table)
    {
      if table.Some? {
        return table.value;
      }
      routing := map[];
      for i := 0 to |members|
        invariant Indexes(routing, members[..i])
      {
        var claimed := MemberClaimedHosts(members[i]);
        ghost var before := routing;
        routing := routing + map h | h in claimed && h !in routing :: i;
        OneMoreMember(members, i, before, routing);
      }
      assert members[..|members|] == members;
      table := Some(routing);
    }

    method PrepareRouting(inQuestion: nat)
      requires Valid()
      modifies this
      ensures Valid()
      ensures old(table).Some? || inQuestion <= ROUTING_TABLE_WORTH_IT ==> table == old(table)
    {
      if inQuestion > ROUTING_TABLE_WORTH_IT {
        var _ := Routing();
      }
    }

    /** The first member to claim the host, whether or not the table was built. */
    method OwnerIndex(host: string) returns (owner: Option<nat>)
      requires Valid()
      ensures owner == OwnerOf(members, host)
      ensures IsOwner(members, host, owner)
    {
      if table.Some? {
        assert Indexes(table.value, members);
        return if host in table.value then Some(table.value[host]) else None;
      }
      for i := 0 to |members|
        invariant forall j | 0 <= j < i :: !MemberClaims(members[j], host)
      {
        if MemberClaims(members[i], host) {
          OwnerIsUnique(members, host, Some(i));
          return Some(i);
        }
      }
      OwnerIsUnique(members, host, None);
      owner := None;
    }

    /** The hosts the view serves, sorted, each once. */
    method Hosts() returns (hosts: seq<string>)
      requires Valid()
      modifies this
      ensures Valid()
      ensures Ascending(hosts) && forall h :: h in hosts <==> Serves(members, h)
    {
      var routing := Routing();
      hosts := [];
      var todo := routing.Keys;
      assert Indexes(routing, members);
      while todo != {}
        invariant todo <= routing.Keys
        invariant Distinct(hosts)
        invariant forall h :: h in hosts <==> Serves(members, h) && h in routing && h !in todo
        decreases todo
      {
        var h :| h in todo;
        todo := todo - {h};
        assert OwnerOf(members, h) == Some(routing[h]);
        if Has(members[routing[h]], h) {
          hosts := hosts + [h];
        }
      }
      SortDistinct(hosts);
      hosts := Sort(hosts);
    }

    /** The request, apart by owner; or the names nobody claims, in order. */
    method Route(hosts: seq<string>) returns (r: Result<seq<Routed>, seq<string>>)
      requires Valid()
      modifies this
      ensures Valid()
      ensures match r
              case Err(unclaimed) => unclaimed == OwnedBy(members, hosts, None) != []
              case Ok(routed) => IsRouting(members, hosts, routed)
    {
      hide OwnedBy, OwnerOf, Shares, MemberClaims;
      PrepareRouting(|hosts|);
      var byMember: map<nat, seq<string>> := map[];
      var unclaimed: seq<string> := [];
      NoShares(members);
      for i := 0 to |hosts|
        invariant Valid()
        invariant Apart(members, hosts[..i], byMember, unclaimed)
      {
        var owner := OwnerIndex(hosts[i]);
        OneMoreShare(members, hosts, i, byMember, unclaimed);
        if owner.Some? {
          byMember := WithShare(byMember, owner.value, hosts[i]);
        } else {
          unclaimed := unclaimed + [hosts[i]];
        }
      }
      assert hosts[..|hosts|] == hosts;
      if unclaimed != [] {
        return Err(unclaimed);
      }
      NobodyUnclaimed(members, hosts);
      var routed := InOrder(members, hosts, byMember);
      r := Ok(routed);
    }
  }

  lemma OneMoreMember(members: seq<Member>, i: nat, before: map<string, nat>, after: map<string, nat>)
    requires i < |members| && Indexes(before, members[..i])
    requires forall h :: h in after <==> h in before || MemberClaims(members[i], h)
    requires forall h | h in after :: after[h] == if h in before then before[h] else i
    ensures Indexes(after, members[..i + 1])
  {
    assert members[..i + 1][..i] == members[..i];
    forall h
      ensures OwnerOf(members[..i + 1], h) == if h in after then Some(after[h]) else None
    {
      assert OwnerOf(members[..i], h) == if h in before then Some(before[h]) else None;
    }
  }

  /** The table of shares holds each owner's part of the request, and no empty part. */
  ghost predicate Shares(members: seq<Member>, hosts: seq<string>, byMember: map<nat, seq<string>>) {
    forall k: nat :: OwnedBy(members, hosts, Some(k)) == (if k in byMember then byMember[k] else [])
                     && (k in byMember ==> byMember[k] != [])
  }

  function WithShare(byMember: map<nat, seq<string>>, owner: nat, host: string): map<nat, seq<string>> {
    byMember[owner := (if owner in byMember then byMember[owner] else []) + [host]]
  }

  ghost predicate Apart(members: seq<Member>, hosts: seq<string>, byMember: map<nat, seq<string>>, unclaimed: seq<string>) {
    Shares(members, hosts, byMember) && unclaimed == OwnedBy(members, hosts, None)
  }

  lemma NoShares(members: seq<Member>)
    ensures Apart(members, [], map[], [])
  {
  }

  lemma {:induction false} OneMoreShare(members: seq<Member>, hosts: seq<string>, i: nat,
                                        byMember: map<nat, seq<string>>, unclaimed: seq<string>)
    requires i < |hosts| && Apart(members, hosts[..i], byMember, unclaimed)
    ensures var owner := OwnerOf(members, hosts[i]);
            if owner.Some? then Apart(members, hosts[..i + 1], WithShare(byMember, owner.value, hosts[i]), unclaimed)
            else Apart(members, hosts[..i + 1], byMember, unclaimed + [hosts[i]])
  {
    hide OwnerOf;
    assert hosts[..i + 1][..i] == hosts[..i];
  }

  lemma NobodyUnclaimed(members: seq<Member>, hosts: seq<string>)
    ensures OwnedBy(members, hosts, None) == [] ==> forall h | h in hosts :: OwnerOf(members, h).Some?
  {
    forall h | h in hosts
      ensures OwnerOf(members, h) == None ==> h in OwnedBy(members, hosts, None)
    {
      UnclaimedAreReported(members, hosts, h);
    }
  }

  lemma OwnerHasAShare(members: seq<Member>, hosts: seq<string>, byMember: map<nat, seq<string>>, h: string)
    requires Shares(members, hosts, byMember) && h in hosts && OwnerOf(members, h).Some?
    ensures OwnerOf(members, h).value in byMember && OwnerOf(members, h).value < |members|
  {
    hide OwnedBy, MemberClaims;
    var m := OwnerOf(members, h).value;
    RoutingIsAPartition(members, hosts, Some(m), h);
    assert multiset(OwnedBy(members, hosts, Some(m)))[h] > 0;
    assert OwnedBy(members, hosts, Some(m)) == if m in byMember then byMember[m] else [];
  }

  /** The shares in the members' declared order. */
  method InOrder(members: seq<Member>, hosts: seq<string>, byMember: map<nat, seq<string>>) returns (routed: seq<Routed>)
    requires Shares(members, hosts, byMember)
    requires forall h | h in hosts :: OwnerOf(members, h).Some?
    ensures IsRouting(members, hosts, routed)
  {
    hide OwnedBy, OwnerOf, MemberClaims;
    routed := [];
    for i := 0 to |members|
      invariant forall k | 0 <= k < |routed| ::
                  routed[k].owner < i && routed[k].hosts == OwnedBy(members, hosts, Some(routed[k].owner)) != []
      invariant forall j, k | 0 <= j < k < |routed| :: routed[j].owner < routed[k].owner
      invariant forall m: nat | m < i && m in byMember :: exists k | 0 <= k < |routed| :: routed[k].owner == m
    {
      if i in byMember {
        assert OwnedBy(members, hosts, Some(i)) == byMember[i];
        var longer := routed + [Routed(i, byMember[i])];
        assert longer[|routed|].owner == i;
        assert forall k | 0 <= k < |routed| :: longer[k] == routed[k];
        routed := longer;
      }
    }
    forall h | h in hosts
      ensures exists k | 0 <= k < |routed| :: OwnerOf(members, h) == Some(routed[k].owner)
    {
      OwnerHasAShare(members, hosts, byMember, h);
    }
  }

  /** A refused request names exactly the hosts nobody claims; an accepted one has
      none. */
  lemma {:induction false} UnclaimedAreReported(members: seq<Member>, hosts: seq<string>, h: string)
    ensures h in OwnedBy(members, hosts, None) <==> h in hosts && OwnerOf(members, h) == None
  {
    RoutingIsAPartition(members, hosts, None, h);
    assert h in OwnedBy(members, hosts, None) <==> multiset(OwnedBy(members, hosts, None))[h] > 0;
    assert h in hosts <==> multiset(hosts)[h] > 0;
  }
}
