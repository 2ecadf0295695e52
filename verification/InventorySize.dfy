/** No variable of a static inventory is copied: the bindings emitted are at most
    those declared, in line and in files (src/domain/static_inventory.rs:15-28,
    93-152). */
module InventorySize {
  import opened Text
  import opened Sums
  import opened Json
  import opened Datasets
  import opened StaticInventory
  import opened InventoryAssembly
  import opened InventoryMeaning

  /** The bindings that a declaration brings. */
  function Weight(d: Decl): nat {
    match d
    case HostIn(_, _, _, vars) => |vars|
    case VarsOf(_, _, vars) => |vars|
    case _ => 0
  }

  ghost function Weights(decls: seq<Decl>): nat {
    if decls == [] then 0 else Weights(decls[..|decls| - 1]) + Weight(decls[|decls| - 1])
  }

  lemma {:induction false} WeightsConcat(first: seq<Decl>, second: seq<Decl>)
    ensures Weights(first + second) == Weights(first) + Weights(second)
  {
    if second == [] {
      assert first + second == first;
    } else {
      var n := |second| - 1;
      assert (first + second)[..|first| + n] == first + second[..n];
      WeightsConcat(first, second[..n]);
    }
  }

  lemma WeightsOne(d: Decl)
    ensures Weights([d]) == Weight(d)
  {
    assert [d][..0] == [];
  }

  // ----- the bindings a document declares -----

  function OwnBindings(node: Json): nat {
    if node.Obj? && "vars" in node.fields then |VarsIn(node.fields["vars"])| else 0
  }

  function VarCounts(hosts: map<string, Json>): map<string, nat> {
    map h | h in hosts :: |VarsIn(hosts[h])|
  }

  /** The variables declared at a group and below it, each time they are. */
  ghost function Bindings(node: Json): nat
    decreases node
  {
    OwnBindings(node) + Total(VarCounts(HostsOf(node)))
    + Total(map c | c in ChildrenOf(node) :: Bindings(ChildrenOf(node)[c]))
  }

  ghost function BindingsOf(groups: map<string, Json>): map<string, nat> {
    map c | c in groups :: Bindings(groups[c])
  }

  ghost function SumOf(m: map<string, nat>, keys: seq<string>): nat
    requires forall k | k in keys :: k in m
  {
    if keys == [] then 0 else SumOf(m, keys[..|keys| - 1]) + m[keys[|keys| - 1]]
  }

  lemma LastIsNew(s: seq<string>)
    requires s != [] && Ascending(s)
    ensures s[|s| - 1] !in s[..|s| - 1] && Ascending(s[..|s| - 1])
  {
    if s[|s| - 1] in s[..|s| - 1] {
      BeforeIrreflexive(s[|s| - 1]);
    }
  }

  lemma {:induction false} SumOfFewer(m: map<string, nat>, keys: seq<string>, k: string)
    requires k !in keys && forall x | x in keys :: x in m
    ensures SumOf(m - {k}, keys) == SumOf(m, keys)
  {
    if keys != [] {
      SumOfFewer(m, keys[..|keys| - 1], k);
    }
  }

  /** Adding up along the listing of the keys gives the total. */
  lemma {:induction false} SumOfListing(m: map<string, nat>, keys: seq<string>)
    requires Ascending(keys) && forall k :: k in keys <==> k in m
    ensures SumOf(m, keys) == Total(m)
  {
    if keys == [] {
      EmptyHasNoElement(keys);
      assert m == map[];
    } else {
      var n := |keys| - 1;
      LastIsNew(keys);
      assert keys == keys[..n] + [keys[n]];
      TotalWithout(m, keys[n]);
      SumOfFewer(m, keys[..n], keys[n]);
      SumOfListing(m - {keys[n]}, keys[..n]);
    }
  }

  lemma {:induction false} HostDeclsWeigh(name: string, value: Json, hosts: seq<string>, outer: set<string>)
    requires value.Obj? && forall h | h in hosts :: h in value.fields
    ensures Weights(HostDecls(name, value, hosts, outer)) == SumOf(VarCounts(value.fields), hosts)
  {
    if hosts != [] {
      var n := |hosts| - 1;
      HostDeclsWeigh(name, value, hosts[..n], outer);
      var d := HostIn(name, name !in outer, hosts[n], VarsIn(value.fields[hosts[n]]));
      WeightsConcat(HostDecls(name, value, hosts[..n], outer), [d]);
      WeightsOne(d);
    }
  }

  lemma {:induction false} ChildDeclsWeigh(name: string, value: Json, children: seq<string>, outer: set<string>)
    requires value.Obj? && forall c | c in children :: c in value.fields
    ensures Weights(ChildDecls(name, value, children, outer)) == SumOf(BindingsOf(value.fields), children)
    decreases value, 0, |children|
  {
    hide Decls, Bindings;
    if children != [] {
      var n := |children| - 1;
      ChildDeclsWeigh(name, value, children[..n], outer);
      var child := children[n];
      DeclsWeigh(child, value.fields[child], outer + {name});
      var sofar := ChildDecls(name, value, children[..n], outer);
      var d := ChildOf(name, name !in outer, child);
      WeightsConcat(sofar, [d]);
      WeightsConcat(sofar + [d], Decls(child, value.fields[child], outer + {name}));
      WeightsOne(d);
    }
  }

  lemma {:induction false} SectionWeighs(name: string, node: Json, k: string, outer: set<string>)
    requires node.Obj? && k in node.fields
    ensures Weights(Section(name, k, node.fields[k], outer)) ==
            (if k == "vars" then OwnBindings(node) else 0)
            + (if k == "hosts" then Total(VarCounts(HostsOf(node))) else 0)
            + (if k == "children" then Total(BindingsOf(ChildrenOf(node))) else 0)
    decreases node, 0, 0
  {
    hide Bindings, ChildDecls, HostDecls, Decls, Total, SumOf, VarCounts, BindingsOf;
    var value := node.fields[k];
    if k == "vars" {
      WeightsOne(VarsOf(name, name !in outer, VarsIn(value)));
    } else if value.Obj? && k == "hosts" {
      HostDeclsWeigh(name, value, Listing(value.fields.Keys), outer);
      HostsAddUp(value.fields);
    } else if value.Obj? && k == "children" {
      ChildDeclsWeigh(name, value, Listing(value.fields.Keys), outer);
      ChildrenAddUp(value.fields);
    } else {
      NothingTotals();
    }
  }

  lemma HostsAddUp(hosts: map<string, Json>)
    ensures SumOf(VarCounts(hosts), Listing(hosts.Keys)) == Total(VarCounts(hosts))
  {
    SumOfListing(VarCounts(hosts), Listing(hosts.Keys));
  }

  lemma ChildrenAddUp(groups: map<string, Json>)
    ensures SumOf(BindingsOf(groups), Listing(groups.Keys)) == Total(BindingsOf(groups))
  {
    SumOfListing(BindingsOf(groups), Listing(groups.Keys));
  }

  lemma NothingTotals()
    ensures Total(VarCounts(map[])) == 0
    ensures Total(BindingsOf(map[])) == 0
  {
    assert VarCounts(map[]) == map[];
    assert BindingsOf(map[]).Keys == {};
  }

  lemma {:induction false} SectionsWeigh(name: string, node: Json, keys: seq<string>, outer: set<string>)
    requires node.Obj? && Ascending(keys) && forall k | k in keys :: k in node.fields
    ensures Weights(Sections(name, node, keys, outer)) ==
            (if "vars" in keys then OwnBindings(node) else 0)
            + (if "hosts" in keys then Total(VarCounts(HostsOf(node))) else 0)
            + (if "children" in keys then Total(BindingsOf(ChildrenOf(node))) else 0)
    decreases node, 1, |keys|
  {
    hide Bindings, BindingsOf, VarCounts, OwnBindings, Section, Total;
    if keys != [] {
      var n := |keys| - 1;
      LastIsNew(keys);
      SectionsWeigh(name, node, keys[..n], outer);
      SectionWeighs(name, node, keys[n], outer);
      WeightsConcat(Sections(name, node, keys[..n], outer), Section(name, keys[n], node.fields[keys[n]], outer));
      assert keys == keys[..n] + [keys[n]];
    }
  }

  lemma {:induction false} DeclsWeigh(name: string, node: Json, outer: set<string>)
    ensures Weights(Decls(name, node, outer)) == Bindings(node)
    decreases node, 2, 0
  {
    hide Sections, VarCounts, BindingsOf, Bindings, Total;
    var here := [Declared(name, name !in outer)];
    WeightsOne(Declared(name, name !in outer));
    NothingTotals();
    BindingsAre(node);
    if node.Obj? {
      var keys := Listing(node.fields.Keys);
      WeightsConcat(here, Sections(name, node, keys, outer));
      SectionsWeigh(name, node, keys, outer);
    } else {
      assert here + [] == here;
    }
  }

  lemma BindingsAre(node: Json)
    ensures Bindings(node) == OwnBindings(node) + Total(VarCounts(HostsOf(node))) + Total(BindingsOf(ChildrenOf(node)))
  {
  }

  ghost function RootBindings(root: Json): nat
    requires root.Obj?
  {
    Total(BindingsOf(root.fields))
  }

  lemma {:induction false} RootWeighs(root: Json, names: seq<string>)
    requires root.Obj? && forall n | n in names :: n in root.fields
    ensures Weights(RootDecls(root, names)) == SumOf(BindingsOf(root.fields), names)
  {
    hide Decls, Bindings;
    if names != [] {
      var k := |names| - 1;
      RootWeighs(root, names[..k]);
      DeclsWeigh(names[k], root.fields[names[k]], {});
      WeightsConcat(RootDecls(root, names[..k]), Decls(names[k], root.fields[names[k]], {}));
    }
  }

  // ----- the bindings emitted -----

  ghost function GroupSize(decls: seq<Decl>, n: string): nat {
    var info := WithAll(None, decls, n);
    if info.None? then 0 else |info.value.vars|
  }

  ghost function HostSize(decls: seq<Decl>, h: string): nat {
    var info := HostWithAll(None, decls, h);
    if info.None? then 0 else |info.value.vars|
  }

  lemma MergeSize(a: HostVars, b: HostVars)
    ensures |a + b| <= |a| + |b|
  {
    assert (a + b).Keys == a.Keys + b.Keys;
    assert |(a + b).Keys| == |a + b| && |a.Keys| == |a| && |b.Keys| == |b|;
  }

  /** One entry grew by so much at most, and no other. */
  lemma TotalGrows(a: map<string, nat>, b: map<string, nat>, k: string, w: nat)
    requires a.Keys == b.Keys
    requires forall x | x in a && x != k :: b[x] == a[x]
    requires k in a ==> b[k] <= a[k] + w
    ensures Total(b) <= Total(a) + w
  {
    if k in a {
      TotalUpdate(a, k, b[k]);
      assert b == a[k := b[k]];
    } else {
      assert b == a;
    }
  }

  lemma {:induction false} SizesAtMostWeights(decls: seq<Decl>, groups: set<string>, hosts: set<string>)
    ensures Total(map n | n in groups :: GroupSize(decls, n)) + Total(map h | h in hosts :: HostSize(decls, h)) <= Weights(decls)
  {
    var gs, hs := map n | n in groups :: GroupSize(decls, n), map h | h in hosts :: HostSize(decls, h);
    if decls == [] {
      AllZero(gs);
      AllZero(hs);
    } else {
      var fewer, d := decls[..|decls| - 1], decls[|decls| - 1];
      SizesAtMostWeights(fewer, groups, hosts);
      forall n
        ensures GroupSize(decls, n) <= GroupSize(fewer, n) + if d.VarsOf? && n == d.group then Weight(d) else 0
        ensures !(d.VarsOf? && n == d.group) ==> GroupSize(decls, n) == GroupSize(fewer, n)
        ensures HostSize(decls, n) <= HostSize(fewer, n) + if d.HostIn? && n == d.host then Weight(d) else 0
        ensures !(d.HostIn? && n == d.host) ==> HostSize(decls, n) == HostSize(fewer, n)
      {
        SizeGrows(fewer, d, n);
        assert fewer + [d] == decls;
      }
      TotalGrows(map n | n in groups :: GroupSize(fewer, n), gs, d.group, if d.VarsOf? then Weight(d) else 0);
      TotalGrows(map h | h in hosts :: HostSize(fewer, h), hs, if d.HostIn? then d.host else "", if d.HostIn? then Weight(d) else 0);
    }
  }

  lemma {:induction false} AllZero(m: map<string, nat>)
    requires forall k | k in m :: m[k] == 0
    ensures Total(m) == 0
    decreases |m|
  {
    if m != map[] {
      var k :| k in m;
      TotalWithout(m, k);
      AllZero(m - {k});
    }
  }

  lemma SizeGrows(fewer: seq<Decl>, d: Decl, n: string)
    ensures GroupSize(fewer + [d], n) <= GroupSize(fewer, n) + if d.VarsOf? && n == d.group then Weight(d) else 0
    ensures !(d.VarsOf? && n == d.group) ==> GroupSize(fewer + [d], n) == GroupSize(fewer, n)
    ensures HostSize(fewer + [d], n) <= HostSize(fewer, n) + if d.HostIn? && n == d.host then Weight(d) else 0
    ensures !(d.HostIn? && n == d.host) ==> HostSize(fewer + [d], n) == HostSize(fewer, n)
  {
    assert (fewer + [d])[..|fewer|] == fewer;
    if d.VarsOf? {
      MergeSize(OrEmptyInfo(WithAll(None, fewer, n)).vars, d.vars);
    }
    if d.HostIn? && HostWithAll(None, fewer, n).Some? {
      MergeSize(HostWithAll(None, fewer, n).value.vars, d.vars);
    }
  }

  /** A total of sums is at most the sum of the totals, over more keys even. */
  lemma {:induction false} TotalOfSums(m: map<string, nat>, a: map<string, nat>, b: map<string, nat>)
    requires m.Keys <= a.Keys
    requires forall k | k in m :: m[k] <= a[k] + if k in b then b[k] else 0
    ensures Total(m) <= Total(a) + Total(b)
    decreases |m|
  {
    if m != map[] {
      var k :| k in m;
      TotalWithout(m, k);
      TotalWithout(a, k);
      if k in b {
        TotalWithout(b, k);
      } else {
        assert b - {k} == b;
      }
      TotalOfSums(m - {k}, a - {k}, b - {k});
    }
  }

  function GroupVarCount(g: Group): nat {
    if g.vars.Some? then |g.vars.value| else 0
  }

  ghost function EmittedBindings(d: Dataset): nat {
    Total(map n | n in d.groups :: GroupVarCount(d.groups[n])) + Total(map h | h in d.hostvars :: |d.hostvars[h]|)
  }

  function PartsBindings(parts: seq<FileText>): nat {
    if parts == [] then 0
    else PartsBindings(parts[..|parts| - 1])
         + (var last := parts[|parts| - 1]; if last.Tree? then |VarsIn(last.value)| else 0)
  }

  ghost function FileBindings(files: map<string, seq<FileText>>): nat {
    Total(map n | n in files :: PartsBindings(files[n]))
  }

  lemma {:induction false} MergedSize(parts: seq<FileText>)
    requires forall i | 0 <= i < |parts| :: HoldsVars(parts[i])
    ensures |Merged(parts)| <= PartsBindings(parts)
  {
    if parts != [] {
      var n := |parts| - 1;
      MergedSize(parts[..n]);
      assert HoldsVars(parts[n]);
      MergeSize(Merged(parts[..n]), VarsIn(parts[n].value));
    }
  }

  lemma GroupsSize(groups: map<string, Group>, decls: seq<Decl>, files: map<string, seq<FileText>>, vars: map<string, HostVars>)
    requires FilesFormed(files) && MergedAll(files, vars) && GroupsAssembled(groups, decls, vars)
    ensures Total(map n | n in groups :: GroupVarCount(groups[n]))
         <= Total(map n | n in groups :: GroupSize(decls, n)) + FileBindings(files)
  {
    hide Total, WithAll, Merged, PartsBindings, HoldsVars;
    var emitted := map n | n in groups :: GroupVarCount(groups[n]);
    var sizes := map n | n in groups :: GroupSize(decls, n);
    var parts := map n | n in files :: PartsBindings(files[n]);
    forall n | n in emitted
      ensures emitted[n] <= sizes[n] + if n in parts then parts[n] else 0
    {
      MergeSize(WithAll(None, decls, n).value.vars, Extra(vars, n));
      if n in files {
        MergedSize(files[n]);
      }
    }
    TotalOfSums(emitted, sizes, parts);
  }

  lemma HostsSize(hostvars: map<string, HostVars>, decls: seq<Decl>, files: map<string, seq<FileText>>, vars: map<string, HostVars>)
    requires FilesFormed(files) && MergedAll(files, vars) && HostsAssembled(hostvars, decls, vars)
    ensures Total(map h | h in hostvars :: |hostvars[h]|)
         <= Total(map h | h in hostvars :: HostSize(decls, h)) + FileBindings(files)
  {
    hide Total, HostWithAll, Merged, PartsBindings, HoldsVars;
    var emitted := map h | h in hostvars :: |hostvars[h]|;
    var sizes := map h | h in hostvars :: HostSize(decls, h);
    var parts := map n | n in files :: PartsBindings(files[n]);
    forall h | h in emitted
      ensures emitted[h] <= sizes[h] + if h in parts then parts[h] else 0
    {
      MergeSize(HostWithAll(None, decls, h).value.vars, Extra(vars, h));
      if h in files {
        MergedSize(files[h]);
      }
    }
    TotalOfSums(emitted, sizes, parts);
  }

  /** For every accepted input, the dataset binds no more variables, over all its
      hosts and groups, than the inventory and its files do. */
  lemma {:induction false} EmittedAtMostDeclared(input: Input, d: Dataset, strays: set<string>)
    requires Acceptable(input) && IsParsed(input, d, strays)
    ensures EmittedBindings(d) <=
            RootBindings(input.inventory.value) + FileBindings(input.groupVars) + FileBindings(input.hostVars)
  {
    hide AllDecls, GroupsAssembled, HostsAssembled, WellFormed, MergedAll, Strays, FileBindings, Total, FilesFormed, GroupSize, HostSize;
    var root := input.inventory.value;
    var groupFiles: map<string, HostVars>, hostFiles: map<string, HostVars> :|
      && MergedAll(input.groupVars, groupFiles) && MergedAll(input.hostVars, hostFiles)
      && IsAssembled(d, AllDecls(root), groupFiles, hostFiles);
    var decls := AllDecls(root);
    AssembledParts(d, decls, groupFiles, hostFiles);
    GroupsSize(d.groups, decls, input.groupVars, groupFiles);
    HostsSize(d.hostvars, decls, input.hostVars, hostFiles);
    SizesAtMostWeights(decls, d.groups.Keys, d.hostvars.Keys);
    assert (map n | n in d.groups.Keys :: GroupSize(decls, n)) == map n | n in d.groups :: GroupSize(decls, n);
    assert (map h | h in d.hostvars.Keys :: HostSize(decls, h)) == map h | h in d.hostvars :: HostSize(decls, h);
    AllDeclsWeigh(root);
  }

  lemma AllDeclsWeigh(root: Json)
    requires root.Obj?
    ensures Weights(AllDecls(root)) == RootBindings(root)
  {
    hide BindingsOf, RootDecls, Total, SumOf;
    RootWeighs(root, Listing(root.fields.Keys));
    ChildrenAddUp(root.fields);
  }
}
