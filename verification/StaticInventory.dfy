/** Static YAML inventories: the walk over the tree of groups, which holds a
    group's record outside the table while it visits what is below, and the
    assembly of hosts and groups from what it collected
    (src/domain/static_inventory.rs:42-258). The texts of the files, and the
    YAML reader, are parameters: a document is what reading it gave. */
module StaticInventory {
  import opened Text
  import opened Json
  import opened Datasets

  datatype Info = Info(hosts: seq<string>, children: seq<string>, vars: HostVars)

  const EMPTY_INFO := Info([], [], map[])

  /** What is known of a host: the groups that name it, and its inline variables. */
  datatype HostInfo = HostInfo(groups: seq<string>, vars: HostVars)

  datatype Fault =
    | NotAMapping(what: string)
    | RangePattern(host: string)
    | UnknownKey(key: string)
    | Unreadable(file: string)

  // ----- what a document declares, in the order it is visited -----

  /** One declaration. `kept` is false below a group of the same name. */
  datatype Decl =
    | Declared(group: string, kept: bool)
    | HostIn(group: string, kept: bool, host: string, vars: HostVars)
    | ChildOf(group: string, kept: bool, child: string)
    | VarsOf(group: string, kept: bool, vars: HostVars)

  function VarsIn(node: Json): HostVars {
    if node.Obj? then node.fields else map[]
  }

  predicate IsVars(node: Json) {
    node.Obj? || node.Null?
  }

  predicate WellFormed(node: Json)
    decreases node, 0
  {
    node.Null? || (node.Obj? && forall key | key in node.fields :: SectionFormed(key, node.fields[key]))
  }

  predicate SectionFormed(key: string, value: Json)
    decreases value, 1
  {
    || (key == "hosts" && value.Obj? && forall h | h in value.fields :: '[' !in h && IsVars(value.fields[h]))
    || (key == "children" && value.Obj? && forall c | c in value.fields :: WellFormed(value.fields[c]))
    || (key == "vars" && IsVars(value))
  }

  /** The declarations at and below a group, given the names of the groups it is in. */
  ghost function Decls(name: string, node: Json, outer: set<string>): seq<Decl>
    decreases node, 1, 0
  {
    [Declared(name, name !in outer)]
    + if node.Obj? then Sections(name, node, Listing(node.fields.Keys), outer) else []
  }

  ghost function Sections(name: string, node: Json, keys: seq<string>, outer: set<string>): seq<Decl>
    requires node.Obj? && forall k | k in keys :: k in node.fields
    decreases node, 0, |keys|
  {
    if keys == [] then []
    else
      var n := |keys| - 1;
      Sections(name, node, keys[..n], outer) + Section(name, keys[n], node.fields[keys[n]], outer)
  }

  ghost function Section(name: string, key: string, value: Json, outer: set<string>): seq<Decl>
    decreases value, 1, 0
  {
    if key == "vars" then [VarsOf(name, name !in outer, VarsIn(value))]
    else if !value.Obj? then []
    else if key == "hosts" then HostDecls(name, value, Listing(value.fields.Keys), outer)
    else if key == "children" then ChildDecls(name, value, Listing(value.fields.Keys), outer)
    else []
  }

  ghost function HostDecls(name: string, value: Json, hosts: seq<string>, outer: set<string>): seq<Decl>
    requires value.Obj? && forall h | h in hosts :: h in value.fields
  {
    if hosts == [] then []
    else
      var n := |hosts| - 1;
      HostDecls(name, value, hosts[..n], outer)
      + [HostIn(name, name !in outer, hosts[n], VarsIn(value.fields[hosts[n]]))]
  }

  ghost function ChildDecls(name: string, value: Json, children: seq<string>, outer: set<string>): seq<Decl>
    requires value.Obj? && forall c | c in children :: c in value.fields
    decreases value, 0, |children|
  {
    if children == [] then []
    else
      var n := |children| - 1;
      ChildDecls(name, value, children[..n], outer)
      + [ChildOf(name, name !in outer, children[n])]
      + Decls(children[n], value.fields[children[n]], outer + {name})
  }

  ghost function RootDecls(root: Json, names: seq<string>): seq<Decl>
    requires root.Obj? && forall n | n in names :: n in root.fields
  {
    if names == [] then []
    else
      var k := |names| - 1;
      RootDecls(root, names[..k]) + Decls(names[k], root.fields[names[k]], {})
  }

  // ----- what the declarations amount to -----

  function OrEmptyInfo(info: Option<Info>): Info {
    if info.Some? then info.value else EMPTY_INFO
  }

  /** A group's record, with one more declaration taken into account. */
  function With(info: Option<Info>, d: Decl, name: string): Option<Info> {
    if d.group != name || !d.kept then info
    else
      var was := OrEmptyInfo(info);
      Some(match d
           case Declared(_, _) => was
           case HostIn(_, _, host, _) => was.(hosts := was.hosts + [host])
           case ChildOf(_, _, child) => was.(children := was.children + [child])
           case VarsOf(_, _, vars) => was.(vars := was.vars + vars))
  }

  function WithAll(info: Option<Info>, decls: seq<Decl>, name: string): Option<Info> {
    if decls == [] then info
    else With(WithAll(info, decls[..|decls| - 1], name), decls[|decls| - 1], name)
  }

  function HostWith(info: Option<HostInfo>, d: Decl, host: string): Option<HostInfo> {
    if !d.HostIn? || d.host != host then info
    else if info.None? then Some(HostInfo([d.group], d.vars))
    else Some(HostInfo(info.value.groups + [d.group], info.value.vars + d.vars))
  }

  function HostWithAll(info: Option<HostInfo>, decls: seq<Decl>, host: string): Option<HostInfo> {
    if decls == [] then info
    else HostWith(HostWithAll(info, decls[..|decls| - 1], host), decls[|decls| - 1], host)
  }

  lemma {:induction false} WithAllConcat(info: Option<Info>, first: seq<Decl>, second: seq<Decl>, name: string)
    ensures WithAll(info, first + second, name) == WithAll(WithAll(info, first, name), second, name)
  {
    if second == [] {
      assert first + second == first;
    } else {
      var n := |second| - 1;
      assert (first + second)[..|first| + n] == first + second[..n];
      WithAllConcat(info, first, second[..n], name);
    }
  }

  lemma {:induction false} HostWithAllConcat(info: Option<HostInfo>, first: seq<Decl>, second: seq<Decl>, host: string)
    ensures HostWithAll(info, first + second, host) == HostWithAll(HostWithAll(info, first, host), second, host)
  {
    if second == [] {
      assert first + second == first;
    } else {
      var n := |second| - 1;
      assert (first + second)[..|first| + n] == first + second[..n];
      HostWithAllConcat(info, first, second[..n], host);
    }
  }

  // ----- the walk -----

  datatype Collected = Collected(
    groups: map<string, Info>,
    memberships: map<string, seq<string>>,
    inlineVars: map<string, HostVars>)

  function Look(c: Collected, name: string): Option<Info> {
    if name in c.groups then Some(c.groups[name]) else None
  }

  function LookHost(c: Collected, host: string): Option<HostInfo> {
    if host in c.memberships
    then Some(HostInfo(c.memberships[host], if host in c.inlineVars then c.inlineVars[host] else map[]))
    else None
  }

  /** The declarations have been taken into account: for every host, and for every
      group but those whose records are held elsewhere. */
  ghost predicate Grown(was: Collected, now: Collected, decls: seq<Decl>, outer: set<string>) {
    && (forall n | n !in outer :: Look(now, n) == WithAll(Look(was, n), decls, n))
    && (forall h :: LookHost(now, h) == HostWithAll(LookHost(was, h), decls, h))
  }

  lemma {:induction false} GrownTwice(a: Collected, b: Collected, c: Collected, first: seq<Decl>, second: seq<Decl>, outer: set<string>)
    requires Grown(a, b, first, outer) && Grown(b, c, second, outer)
    ensures Grown(a, c, first + second, outer)
  {
    forall n | n !in outer
      ensures Look(c, n) == WithAll(Look(a, n), first + second, n)
    {
      WithAllConcat(Look(a, n), first, second, n);
    }
    forall h
      ensures LookHost(c, h) == HostWithAll(LookHost(a, h), first + second, h)
    {
      HostWithAllConcat(LookHost(a, h), first, second, h);
    }
  }

  /** The table with the record that is held out of it put back. */
  function Holding(c: Collected, name: string, info: Info): Collected {
    c.(groups := c.groups[name := info])
  }

  /** No declaration kept belongs to a group the walk is inside of. */
  predicate NoneKept(decls: seq<Decl>, outer: set<string>) {
    forall d | d in decls && d.kept :: d.group !in outer
  }

  lemma {:induction false} NoneKeptInside(name: string, node: Json, outer: set<string>)
    ensures NoneKept(Decls(name, node, outer), outer)
    decreases node, 1, 0
  {
    if node.Obj? {
      NoneKeptInSections(name, node, Listing(node.fields.Keys), outer);
    }
  }

  lemma {:induction false} NoneKeptInSections(name: string, node: Json, keys: seq<string>, outer: set<string>)
    requires node.Obj? && forall k | k in keys :: k in node.fields
    ensures NoneKept(Sections(name, node, keys, outer), outer)
    decreases node, 0, |keys|
  {
    if keys != [] {
      var n := |keys| - 1;
      NoneKeptInSections(name, node, keys[..n], outer);
      var key, value := keys[n], node.fields[keys[n]];
      if value.Obj? && key == "hosts" {
        NoneKeptInHosts(name, value, Listing(value.fields.Keys), outer);
      } else if value.Obj? && key == "children" {
        NoneKeptInChildren(name, value, Listing(value.fields.Keys), outer);
      }
    }
  }

  lemma {:induction false} NoneKeptInHosts(name: string, value: Json, hosts: seq<string>, outer: set<string>)
    requires value.Obj? && forall h | h in hosts :: h in value.fields
    ensures NoneKept(HostDecls(name, value, hosts, outer), outer)
  {
    if hosts != [] {
      NoneKeptInHosts(name, value, hosts[..|hosts| - 1], outer);
    }
  }

  lemma {:induction false} NoneKeptInChildren(name: string, value: Json, children: seq<string>, outer: set<string>)
    requires value.Obj? && forall c | c in children :: c in value.fields
    ensures NoneKept(ChildDecls(name, value, children, outer), outer)
    decreases value, 0, |children|
  {
    if children != [] {
      var n := |children| - 1;
      NoneKeptInChildren(name, value, children[..n], outer);
      NoneKeptInside(children[n], value.fields[children[n]], outer + {name});
    }
  }

  lemma {:induction false} NothingAdded(info: Option<Info>, decls: seq<Decl>, name: string)
    requires NoneKept(decls, {name})
    ensures WithAll(info, decls, name) == info
  {
    if decls != [] {
      NothingAdded(info, decls[..|decls| - 1], name);
    }
  }

  /** What grew below a group while its record was out grew just the same with the
      record in: nothing kept below is about the group itself. */
  lemma {:induction false} GrownAround(was: Collected, now: Collected, decls: seq<Decl>, outer: set<string>, name: string, info: Info)
    requires Grown(was, now, decls, outer + {name})
    requires NoneKept(decls, outer + {name})
    ensures Grown(Holding(was, name, info), Holding(now, name, info), decls, outer)
  {
    NothingAdded(Some(info), decls, name);
    forall n | n !in outer
      ensures Look(Holding(now, name, info), n) == WithAll(Look(Holding(was, name, info), n), decls, n)
    {
      if n != name {
        assert n !in outer + {name};
        assert Look(now, n) == WithAll(Look(was, n), decls, n);
      }
    }
    forall h
      ensures LookHost(Holding(now, name, info), h) == HostWithAll(LookHost(Holding(was, name, info), h), decls, h)
    {
      assert LookHost(now, h) == HostWithAll(LookHost(was, h), decls, h);
    }
  }

  lemma {:induction false} OneDecl(info: Option<Info>, host: Option<HostInfo>, d: Decl, name: string)
    ensures WithAll(info, [d], name) == With(info, d, name)
    ensures HostWithAll(host, [d], name) == HostWith(host, d, name)
  {
    assert [d][..0] == [];
  }

  /** What a host's entry under a group leaves in the tables. */
  function HostNamed(c: Collected, group: string, host: string, vars: HostVars): Collected {
    c.(memberships := c.memberships[host := (if host in c.memberships then c.memberships[host] else []) + [group]],
       inlineVars := c.inlineVars[host := (if host in c.inlineVars then c.inlineVars[host] else map[]) + vars])
  }

  /** A group's own record grew by one declaration, and with it a host's. */
  lemma {:induction false} GrownByOne(was: Collected, d: Decl, outer: set<string>, info: Info, grown: Info)
    requires d.kept <==> d.group !in outer
    requires With(Some(info), d, d.group) == if d.kept then Some(grown) else Some(info)
    requires was.inlineVars.Keys <= was.memberships.Keys
    ensures var now := if d.HostIn? then HostNamed(was, d.group, d.host, d.vars) else was;
            Grown(Holding(was, d.group, info), Holding(now, d.group, grown), [d], outer)
  {
    var now := if d.HostIn? then HostNamed(was, d.group, d.host, d.vars) else was;
    var a, b := Holding(was, d.group, info), Holding(now, d.group, grown);
    forall n | n !in outer
      ensures Look(b, n) == WithAll(Look(a, n), [d], n)
    {
      OneDecl(Look(a, n), None, d, n);
    }
    forall h
      ensures LookHost(b, h) == HostWithAll(LookHost(a, h), [d], h)
    {
      OneDecl(None, LookHost(a, h), d, h);
      if d.HostIn? && h == d.host {
        assert map[] + d.vars == d.vars && [] + [d.group] == [d.group];
      }
    }
  }

  lemma {:induction false} GroupTaken(was: Collected, name: string, outer: set<string>)
    ensures var info := if name in was.groups then was.groups[name] else EMPTY_INFO;
            Grown(was, Holding(was.(groups := was.groups - {name}), name, info), [Declared(name, name !in outer)], outer)
  {
    var d := Declared(name, name !in outer);
    forall n
      ensures WithAll(Look(was, n), [d], n) == With(Look(was, n), d, n)
      ensures HostWithAll(LookHost(was, n), [d], n) == LookHost(was, n)
    {
      OneDecl(Look(was, n), LookHost(was, n), d, n);
    }
  }

  lemma {:induction false} NothingGrown(c: Collected, outer: set<string>)
    ensures Grown(c, c, [], outer)
  {
  }

  lemma {:induction false} HostStep(first: Collected, c: Collected, name: string, value: Json, hosts: seq<string>, i: nat,
                 info: Info, outer: set<string>)
    requires value.Obj? && i < |hosts| && forall h | h in hosts :: h in value.fields
    requires c.inlineVars.Keys <= c.memberships.Keys
    requires Grown(first, Holding(c, name, info), HostDecls(name, value, hosts[..i], outer), outer)
    ensures Grown(first,
                  Holding(HostNamed(c, name, hosts[i], VarsIn(value.fields[hosts[i]])), name,
                          info.(hosts := info.hosts + [hosts[i]])),
                  HostDecls(name, value, hosts[..i + 1], outer), outer)
  {
    var host := hosts[i];
    var vars := VarsIn(value.fields[host]);
    var d := HostIn(name, name !in outer, host, vars);
    var out := info.(hosts := info.hosts + [host]);
    hide Grown, Holding, HostNamed;
    GrownByOne(c, d, outer, info, out);
    assert hosts[..i + 1][..i] == hosts[..i];
    GrownTwice(first, Holding(c, name, info), Holding(HostNamed(c, name, host, vars), name, out),
               HostDecls(name, value, hosts[..i], outer), [d], outer);
  }

  lemma {:induction false} ChildNamed(first: Collected, c: Collected, name: string, sofar: seq<Decl>, child: string,
                   info: Info, outer: set<string>)
    requires c.inlineVars.Keys <= c.memberships.Keys
    requires Grown(first, Holding(c, name, info), sofar, outer)
    ensures Grown(first, Holding(c, name, info.(children := info.children + [child])),
                  sofar + [ChildOf(name, name !in outer, child)], outer)
  {
    hide Grown, Holding;
    var d := ChildOf(name, name !in outer, child);
    var out := info.(children := info.children + [child]);
    GrownByOne(c, d, outer, info, out);
    GrownTwice(first, Holding(c, name, info), Holding(c, name, out), sofar, [d], outer);
  }

  lemma {:induction false} ChildVisited(first: Collected, before: Collected, now: Collected, name: string, value: Json,
                     children: seq<string>, i: nat, info: Info, outer: set<string>)
    requires value.Obj? && i < |children| && forall c | c in children :: c in value.fields
    requires Grown(first, Holding(before, name, info),
                   ChildDecls(name, value, children[..i], outer) + [ChildOf(name, name !in outer, children[i])], outer)
    requires Grown(before, now, Decls(children[i], value.fields[children[i]], outer + {name}), outer + {name})
    ensures Grown(first, Holding(now, name, info), ChildDecls(name, value, children[..i + 1], outer), outer)
  {
    hide Grown, Holding, Decls, NoneKept;
    var inside := Decls(children[i], value.fields[children[i]], outer + {name});
    NoneKeptInside(children[i], value.fields[children[i]], outer + {name});
    GrownAround(before, now, inside, outer, name, info);
    GrownTwice(first, Holding(before, name, info), Holding(now, name, info),
               ChildDecls(name, value, children[..i], outer) + [ChildOf(name, name !in outer, children[i])], inside, outer);
    assert children[..i + 1][..i] == children[..i];
  }

  lemma {:induction false} VarsNoted(c: Collected, name: string, value: Json, info: Info, outer: set<string>)
    requires c.inlineVars.Keys <= c.memberships.Keys
    ensures Grown(Holding(c, name, info), Holding(c, name, info.(vars := info.vars + VarsIn(value))),
                  Section(name, "vars", value, outer), outer)
  {
    hide Grown, Holding;
    GrownByOne(c, VarsOf(name, name !in outer, VarsIn(value)), outer, info, info.(vars := info.vars + VarsIn(value)));
  }

  lemma {:induction false} SectionVisited(was: Collected, before: Collected, now: Collected, name: string, node: Json,
                       keys: seq<string>, i: nat, outer: set<string>)
    requires node.Obj? && i < |keys| && forall k | k in keys :: k in node.fields
    requires Grown(was, before, [Declared(name, name !in outer)] + Sections(name, node, keys[..i], outer), outer)
    requires Grown(before, now, Section(name, keys[i], node.fields[keys[i]], outer), outer)
    ensures Grown(was, now, [Declared(name, name !in outer)] + Sections(name, node, keys[..i + 1], outer), outer)
  {
    hide Grown, Section;
    var here := [Declared(name, name !in outer)];
    var sofar, more := Sections(name, node, keys[..i], outer), Section(name, keys[i], node.fields[keys[i]], outer);
    GrownTwice(was, before, now, here + sofar, more, outer);
    assert keys[..i + 1][..i] == keys[..i];
    assert here + sofar + more == here + (sofar + more);
  }

  predicate AllFormed(node: Json, keys: seq<string>)
    requires node.Obj? && forall k | k in keys :: k in node.fields
  {
    forall k | k in keys :: SectionFormed(k, node.fields[k])
  }

  lemma {:induction false} OneMoreFormed(node: Json, keys: seq<string>, i: nat)
    requires node.Obj? && i < |keys| && keys == Listing(node.fields.Keys)
    ensures AllFormed(node, keys[..i]) && SectionFormed(keys[i], node.fields[keys[i]]) ==> AllFormed(node, keys[..i + 1])
    ensures WellFormed(node) ==> SectionFormed(keys[i], node.fields[keys[i]])
  {
    hide SectionFormed, Ascending, Listing;
    assert keys[..i + 1] == keys[..i] + [keys[i]];
    assert keys[i] in keys;
  }

  lemma {:induction false} AllPartsVisited(name: string, node: Json, keys: seq<string>, outer: set<string>)
    requires node.Obj? && keys == Listing(node.fields.Keys)
    ensures keys[..|keys|] == keys
    ensures AllFormed(node, keys) <==> WellFormed(node)
    ensures Decls(name, node, outer) == [Declared(name, name !in outer)] + Sections(name, node, keys, outer)
  {
    hide SectionFormed, Sections;
  }

  class Walk {
    var groups: map<string, Info>
    var memberships: map<string, seq<string>>
    var inlineVars: map<string, HostVars>

    constructor ()
      ensures Valid() && Now() == Collected(map[], map[], map[])
    {
      groups, memberships, inlineVars := map[], map[], map[];
    }

    ghost function Now(): Collected
      reads this
    {
      Collected(groups, memberships, inlineVars)
    }

    ghost predicate Valid()
      reads this
    {
      inlineVars.Keys <= memberships.Keys
    }

    method NameHost(group: string, host: string, vars: HostVars)
      requires Valid()
      modifies this
      ensures Valid() && Now() == HostNamed(old(Now()), group, host, vars)
    {
      memberships := memberships[host := (if host in memberships then memberships[host] else []) + [group]];
      inlineVars := inlineVars[host := (if host in inlineVars then inlineVars[host] else map[]) + vars];
    }

    /** The `hosts` of a group whose record, `info`, is out of the table. */
    method Hosts(name: string, value: Json, info: Info, ghost outer: set<string>) returns (r: Result<Info, Fault>)
      requires Valid()
      modifies this
      ensures r.Ok? <==> SectionFormed("hosts", value)
      ensures r.Ok? ==> Valid() && Grown(Holding(old(Now()), name, info), Holding(Now(), name, r.value),
                                         Section(name, "hosts", value, outer), outer)
    {
      if !value.Obj? {
        return Err(NotAMapping(name));
      }
      hide Grown, Holding, HostNamed, WellFormed;
      var hosts := List(value.fields.Keys);
      var out := info;
      ghost var first := Holding(Now(), name, info);
      NothingGrown(first, outer);
      for i := 0 to |hosts|
        invariant Valid()
        invariant forall j | 0 <= j < i :: '[' !in hosts[j] && IsVars(value.fields[hosts[j]])
        invariant Grown(first, Holding(Now(), name, out), HostDecls(name, value, hosts[..i], outer), outer)
      {
        var host := hosts[i];
        if '[' in host {
          return Err(RangePattern(host));
        }
        if !IsVars(value.fields[host]) {
          return Err(NotAMapping(host));
        }
        HostStep(first, Now(), name, value, hosts, i, out, outer);
        out := out.(hosts := out.hosts + [host]);
        NameHost(name, host, VarsIn(value.fields[host]));
      }
      assert hosts[..|hosts|] == hosts;
      r := Ok(out);
    }

    method Children(name: string, value: Json, info: Info, ghost outer: set<string>) returns (r: Result<Info, Fault>)
      requires Valid()
      modifies this
      ensures r.Ok? <==> SectionFormed("children", value)
      ensures r.Ok? ==> Valid() && Grown(Holding(old(Now()), name, info), Holding(Now(), name, r.value),
                                         Section(name, "children", value, outer), outer)
      decreases value, 1
    {
      if !value.Obj? {
        return Err(NotAMapping(name));
      }
      hide Grown, Holding, WellFormed, Decls;
      var children := List(value.fields.Keys);
      var out := info;
      ghost var first := Holding(Now(), name, info);
      NothingGrown(first, outer);
      for i := 0 to |children|
        invariant Valid()
        invariant forall j | 0 <= j < i :: WellFormed(value.fields[children[j]])
        invariant Grown(first, Holding(Now(), name, out), ChildDecls(name, value, children[..i], outer), outer)
      {
        var child := children[i];
        ghost var before := Now();
        ChildNamed(first, before, name, ChildDecls(name, value, children[..i], outer), child, out, outer);
        out := out.(children := out.children + [child]);
        var below := Group(child, value.fields[child], outer + {name});
        if below.Err? {
          return Err(below.error);
        }
        ChildVisited(first, before, Now(), name, value, children, i, out, outer);
      }
      assert children[..|children|] == children;
      r := Ok(out);
    }

    /** One key of a group's mapping. */
    method Part(name: string, key: string, value: Json, info: Info, ghost outer: set<string>) returns (r: Result<Info, Fault>)
      requires Valid()
      modifies this
      ensures r.Ok? <==> SectionFormed(key, value)
      ensures r.Ok? ==> Valid() && Grown(Holding(old(Now()), name, info), Holding(Now(), name, r.value),
                                         Section(name, key, value, outer), outer)
      decreases value, 2
    {
      hide Grown, Holding, Section;
      if key == "hosts" {
        r := Hosts(name, value, info, outer);
      } else if key == "children" {
        r := Children(name, value, info, outer);
      } else if key == "vars" {
        if !IsVars(value) {
          return Err(NotAMapping(name));
        }
        VarsNoted(Now(), name, value, info, outer);
        r := Ok(info.(vars := info.vars + VarsIn(value)));
      } else {
        r := Err(UnknownKey(key));
      }
    }

    /** The keys of a group's mapping, in order, after what is known already. */
    method Parts(name: string, node: Json, info: Info, ghost was: Collected, ghost here: seq<Decl>, ghost outer: set<string>)
      returns (r: Result<Info, Fault>)
      requires Valid() && node.Obj?
      requires here == [Declared(name, name !in outer)] && Grown(was, Holding(Now(), name, info), here, outer)
      modifies this
      ensures r.Ok? <==> WellFormed(node)
      ensures r.Ok? ==> Valid() && Grown(was, Holding(Now(), name, r.value), Decls(name, node, outer), outer)
      decreases node, 2
    {
      hide Grown, Section, Holding, SectionFormed, Ascending, Decls, WellFormed;
      var keys := List(node.fields.Keys);
      var out := info;
      assert here + [] == here;
      for i := 0 to |keys|
        invariant Valid()
        invariant AllFormed(node, keys[..i])
        invariant Grown(was, Holding(Now(), name, out), here + Sections(name, node, keys[..i], outer), outer)
      {
        ghost var before := Holding(Now(), name, out);
        var more := Part(name, keys[i], node.fields[keys[i]], out, outer);
        OneMoreFormed(node, keys, i);
        if more.Err? {
          return more;
        }
        out := more.value;
        SectionVisited(was, before, Holding(Now(), name, out), name, node, keys, i, outer);
      }
      AllPartsVisited(name, node, keys, outer);
      r := Ok(out);
    }

    /** A group may be empty, or a mapping of hosts, children and vars. Its record is
        taken out of the table here, and put back when everything below is done. */
    method Group(name: string, node: Json, ghost outer: set<string>) returns (r: Result<(), Fault>)
      requires Valid()
      modifies this
      ensures r.Ok? <==> WellFormed(node)
      ensures r.Ok? ==> Valid() && Grown(old(Now()), Now(), Decls(name, node, outer), outer)
      decreases node, 3
    {
      hide Grown, Sections, SectionFormed;
      ghost var was := Now();
      var info := if name in groups then groups[name] else EMPTY_INFO;
      groups := groups - {name};
      ghost var here := [Declared(name, name !in outer)];
      GroupTaken(was, name, outer);
      assert here + [] == here;
      if node.Obj? {
        var more := Parts(name, node, info, was, here, outer);
        if more.Err? {
          return Err(more.error);
        }
        info := more.value;
      } else if !node.Null? {
        return Err(NotAMapping(name));
      }
      groups := groups[name := info];
      r := Ok(());
    }
  }
}
