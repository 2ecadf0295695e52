/** What a static inventory's dataset says of the document, place by place: which
    declarations reach it, and that no variable is copied
    (src/domain/static_inventory.rs:93-152, 178-258). */
module InventoryMeaning {
  import opened Text
  import opened Sums
  import opened Json
  import opened Datasets
  import opened StaticInventory
  import opened InventoryAssembly

  // ----- places in a document -----

  /** The child groups of a group. */
  function ChildrenOf(node: Json): map<string, Json> {
    if node.Obj? && "children" in node.fields && node.fields["children"].Obj? then node.fields["children"].fields else map[]
  }

  function HostsOf(node: Json): map<string, Json> {
    if node.Obj? && "hosts" in node.fields && node.fields["hosts"].Obj? then node.fields["hosts"].fields else map[]
  }

  /** The group that a path of names leads to from a table of groups. */
  function SiteAt(groups: map<string, Json>, path: seq<string>): Option<Json>
    decreases |path|
  {
    if path == [] || path[0] !in groups then None
    else if |path| == 1 then Some(groups[path[0]])
    else SiteAt(ChildrenOf(groups[path[0]]), path[1..])
  }

  /** A declaration of the group n: where the path ends. */
  predicate Site(root: Json, path: seq<string>, n: string) {
    root.Obj? && SiteAt(root.fields, path).Some? && path[|path| - 1] == n
  }

  /** One that is not nested inside a group of the same name. */
  predicate OutermostSite(root: Json, path: seq<string>, n: string) {
    Site(root, path, n) && n !in path[..|path| - 1]
  }

  /** What a group declares: hosts, children, variables. */
  datatype Part = HostPart | ChildPart | VarPart

  function PartOf(node: Json, part: Part): map<string, Json> {
    match part
    case HostPart => HostsOf(node)
    case ChildPart => ChildrenOf(node)
    case VarPart => if node.Obj? && "vars" in node.fields then VarsIn(node.fields["vars"]) else map[]
  }

  /** The host, child or variable is declared there. */
  predicate PartAt(root: Json, path: seq<string>, n: string, part: Part, x: string) {
    Site(root, path, n) && x in PartOf(SiteAt(root.fields, path).value, part)
  }

  predicate OutermostPartAt(root: Json, path: seq<string>, n: string, part: Part, x: string) {
    OutermostSite(root, path, n) && PartAt(root, path, n, part, x)
  }

  // ----- declarations and places -----

  /** The node itself declares d. */
  predicate Direct(d: Decl, name: string, kept: bool, node: Json) {
    && d.group == name && d.kept == kept
    && match d
       case Declared(_, _) => true
       case HostIn(_, _, h, vars) => h in HostsOf(node) && vars == VarsIn(HostsOf(node)[h])
       case ChildOf(_, _, c) => c in ChildrenOf(node)
       case VarsOf(_, _, vars) => node.Obj? && "vars" in node.fields && vars == VarsIn(node.fields["vars"])
  }

  /** The group at that path from `name` declares d. */
  ghost predicate Below(name: string, node: Json, outer: set<string>, d: Decl, path: seq<string>)
    decreases |path|
  {
    if path == [] then Direct(d, name, name !in outer, node)
    else path[0] in ChildrenOf(node) && Below(path[0], ChildrenOf(node)[path[0]], outer + {name}, d, path[1..])
  }

  ghost predicate InSection(name: string, key: string, value: Json, outer: set<string>, d: Decl) {
    d in Section(name, key, value, outer)
  }

  lemma {:induction false} SectionsHold(name: string, node: Json, keys: seq<string>, outer: set<string>, d: Decl)
    requires node.Obj? && forall k | k in keys :: k in node.fields
    ensures d in Sections(name, node, keys, outer)
       <==> exists k | k in keys :: InSection(name, k, node.fields[k], outer, d)
  {
    if keys != [] {
      var n := |keys| - 1;
      SectionsHold(name, node, keys[..n], outer, d);
      assert keys == keys[..n] + [keys[n]];
    }
  }

  lemma {:induction false} HostDeclsHold(name: string, value: Json, hosts: seq<string>, outer: set<string>, d: Decl)
    requires value.Obj? && forall h | h in hosts :: h in value.fields
    ensures d in HostDecls(name, value, hosts, outer)
       <==> d.HostIn? && d.host in hosts && d == HostIn(name, name !in outer, d.host, VarsIn(value.fields[d.host]))
  {
    if hosts != [] {
      var n := |hosts| - 1;
      HostDeclsHold(name, value, hosts[..n], outer, d);
      assert hosts == hosts[..n] + [hosts[n]];
    }
  }

  ghost predicate InChild(name: string, child: string, node: Json, outer: set<string>, d: Decl) {
    d == ChildOf(name, name !in outer, child) || d in Decls(child, node, outer + {name})
  }

  lemma {:induction false} ChildDeclsHold(name: string, value: Json, children: seq<string>, outer: set<string>, d: Decl)
    requires value.Obj? && forall c | c in children :: c in value.fields
    ensures d in ChildDecls(name, value, children, outer)
       <==> exists c | c in children :: InChild(name, c, value.fields[c], outer, d)
  {
    if children != [] {
      var n := |children| - 1;
      ChildDeclsHold(name, value, children[..n], outer, d);
      assert children == children[..n] + [children[n]];
    }
  }

  /** What one key of a group's mapping declares. */
  ghost predicate InPart(name: string, node: Json, k: string, outer: set<string>, d: Decl) {
    || (k == "vars" && Direct(d, name, name !in outer, node) && d.VarsOf?)
    || (k == "hosts" && Direct(d, name, name !in outer, node) && d.HostIn?)
    || (k == "children" && Direct(d, name, name !in outer, node) && d.ChildOf?)
    || (k == "children" && FromChild(name, node, outer, d))
  }

  ghost predicate FromChild(name: string, node: Json, outer: set<string>, d: Decl) {
    exists c | c in ChildrenOf(node) :: d in Decls(c, ChildrenOf(node)[c], outer + {name})
  }

  lemma {:induction false} SectionHolds(name: string, node: Json, k: string, outer: set<string>, d: Decl)
    requires node.Obj? && k in node.fields
    ensures InSection(name, k, node.fields[k], outer, d) <==> InPart(name, node, k, outer, d)
  {
    hide Decls;
    var value := node.fields[k];
    if k == "hosts" && value.Obj? {
      HostDeclsHold(name, value, Listing(value.fields.Keys), outer, d);
    } else if k == "children" && value.Obj? {
      var children := Listing(value.fields.Keys);
      ChildDeclsHold(name, value, children, outer, d);
      assert ChildrenOf(node) == value.fields;
      if d in ChildDecls(name, value, children, outer) {
        var c :| c in children && InChild(name, c, value.fields[c], outer, d);
      }
      if InPart(name, node, k, outer, d) {
        if FromChild(name, node, outer, d) {
          var c :| c in ChildrenOf(node) && d in Decls(c, ChildrenOf(node)[c], outer + {name});
          assert c in children && InChild(name, c, value.fields[c], outer, d);
        } else {
          assert d.child in children && InChild(name, d.child, value.fields[d.child], outer, d);
        }
      }
    }
  }

  /** What a group declares: what it says itself, and what its children do. */
  lemma {:induction false} DeclsHold(name: string, node: Json, outer: set<string>, d: Decl)
    ensures d in Decls(name, node, outer) <==>
            Direct(d, name, name !in outer, node) || FromChild(name, node, outer, d)
  {
    hide Direct, FromChild, Sections, Section;
    DirectParts(name, node, name !in outer, d);
    if node.Obj? {
      var keys := Listing(node.fields.Keys);
      SectionsHold(name, node, keys, outer, d);
      if d in Sections(name, node, keys, outer) {
        var k :| k in keys && InSection(name, k, node.fields[k], outer, d);
        SectionHolds(name, node, k, outer, d);
      }
      forall k | k in keys && InPart(name, node, k, outer, d)
        ensures d in Sections(name, node, keys, outer)
      {
        SectionHolds(name, node, k, outer, d);
      }
    }
    NoChildNoDecl(name, node, outer, d);
  }

  lemma DirectParts(name: string, node: Json, kept: bool, d: Decl)
    ensures d.Declared? ==> (Direct(d, name, kept, node) <==> d == Declared(name, kept))
    ensures d.VarsOf? && Direct(d, name, kept, node) ==> node.Obj? && "vars" in node.fields
    ensures d.HostIn? && Direct(d, name, kept, node) ==> node.Obj? && "hosts" in node.fields
    ensures d.ChildOf? && Direct(d, name, kept, node) ==> node.Obj? && "children" in node.fields
  {
  }

  lemma NoChildNoDecl(name: string, node: Json, outer: set<string>, d: Decl)
    ensures FromChild(name, node, outer, d) ==> node.Obj? && "children" in node.fields
  {
    hide Decls;
  }

  lemma {:induction false} BelowIsADecl(name: string, node: Json, outer: set<string>, d: Decl, path: seq<string>)
    requires Below(name, node, outer, d, path)
    ensures d in Decls(name, node, outer)
    decreases |path|
  {
    hide Decls, Direct;
    DeclsHold(name, node, outer, d);
    if path != [] {
      var c := path[0];
      BelowIsADecl(c, ChildrenOf(node)[c], outer + {name}, d, path[1..]);
      assert FromChild(name, node, outer, d);
    }
  }

  lemma {:induction false} DeclIsBelow(name: string, node: Json, outer: set<string>, d: Decl) returns (path: seq<string>)
    requires d in Decls(name, node, outer)
    ensures Below(name, node, outer, d, path)
    decreases node
  {
    hide Decls, Direct;
    DeclsHold(name, node, outer, d);
    if FromChild(name, node, outer, d) {
      var c :| c in ChildrenOf(node) && d in Decls(c, ChildrenOf(node)[c], outer + {name});
      var rest := DeclIsBelow(c, ChildrenOf(node)[c], outer + {name}, d);
      path := [c] + rest;
      assert path[1..] == rest;
    } else {
      path := [];
    }
  }

  /** A place is kept when its name is that of no group around it. */
  predicate KeptAt(path: seq<string>, outer: set<string>)
    requires path != []
  {
    path[|path| - 1] !in path[..|path| - 1] && path[|path| - 1] !in outer
  }

  lemma {:induction false} BelowIsASite(groups: map<string, Json>, path: seq<string>, outer: set<string>, d: Decl)
    requires path != [] && path[0] in groups
    ensures Below(path[0], groups[path[0]], outer, d, path[1..]) <==>
            SiteAt(groups, path).Some? && Direct(d, path[|path| - 1], KeptAt(path, outer), SiteAt(groups, path).value)
    decreases |path|
  {
    var rest := path[1..];
    if rest != [] {
      var children := ChildrenOf(groups[path[0]]);
      if rest[0] in children {
        BelowIsASite(children, rest, outer + {path[0]}, d);
        assert path == [path[0]] + rest;
        assert path[..|path| - 1] == [path[0]] + rest[..|rest| - 1];
        assert KeptAt(path, outer) <==> KeptAt(rest, outer + {path[0]});
      }
    }
  }

  lemma {:induction false} RootDeclsHold(root: Json, names: seq<string>, d: Decl)
    requires root.Obj? && forall n | n in names :: n in root.fields
    ensures d in RootDecls(root, names) <==> exists n | n in names :: d in Decls(n, root.fields[n], {})
  {
    if names != [] {
      var k := |names| - 1;
      RootDeclsHold(root, names[..k], d);
      assert names == names[..k] + [names[k]];
    }
  }

  lemma FirstIsDeclared(groups: map<string, Json>, path: seq<string>)
    requires SiteAt(groups, path).Some?
    ensures path != [] && path[0] in groups
  {
  }

  /** The group at the path declares d. */
  predicate DeclaredAt(root: Json, path: seq<string>, d: Decl) {
    path != [] && root.Obj? && SiteAt(root.fields, path).Some?
    && Direct(d, path[|path| - 1], KeptAt(path, {}), SiteAt(root.fields, path).value)
  }

  /** The list of declarations holds those of every group at every place. */
  lemma DeclsAreSites(root: Json, d: Decl)
    requires root.Obj?
    ensures d in AllDecls(root) <==> exists path :: DeclaredAt(root, path, d)
  {
    hide Decls, Below, Direct, SiteAt;
    var names := Listing(root.fields.Keys);
    RootDeclsHold(root, names, d);
    if d in AllDecls(root) {
      var n :| n in names && d in Decls(n, root.fields[n], {});
      var below := DeclIsBelow(n, root.fields[n], {}, d);
      var path := [n] + below;
      assert path[1..] == below;
      BelowIsASite(root.fields, path, {}, d);
      assert DeclaredAt(root, path, d);
    }
    if path :| DeclaredAt(root, path, d) {
      FirstIsDeclared(root.fields, path);
      BelowIsASite(root.fields, path, {}, d);
      BelowIsADecl(path[0], root.fields[path[0]], {}, d, path[1..]);
      assert path[0] in names;
    }
  }

  // ----- what a list of declarations amounts to -----

  /** The declaration gives the group that host, child or variable. */
  predicate Gives(d: Decl, n: string, part: Part, x: string) {
    && d.group == n && d.kept
    && match part
       case HostPart => d.HostIn? && d.host == x
       case ChildPart => d.ChildOf? && d.child == x
       case VarPart => d.VarsOf? && x in d.vars
  }

  predicate InRecord(info: Info, part: Part, x: string) {
    match part
    case HostPart => x in info.hosts
    case ChildPart => x in info.children
    case VarPart => x in info.vars
  }

  lemma {:induction false} RecordExists(decls: seq<Decl>, n: string)
    ensures WithAll(None, decls, n).Some? <==> exists d | d in decls :: d.group == n && d.kept
  {
    if decls != [] {
      var k := |decls| - 1;
      RecordExists(decls[..k], n);
      assert decls == decls[..k] + [decls[k]];
    }
  }

  lemma {:induction false} RecordHolds(decls: seq<Decl>, n: string, part: Part, x: string)
    ensures (WithAll(None, decls, n).Some? && InRecord(WithAll(None, decls, n).value, part, x))
       <==> exists d | d in decls :: Gives(d, n, part, x)
  {
    if decls != [] {
      var k := |decls| - 1;
      RecordHolds(decls[..k], n, part, x);
      assert decls == decls[..k] + [decls[k]];
      OneMoreGives(WithAll(None, decls[..k], n), decls[k], n, part, x);
      if d :| d in decls && Gives(d, n, part, x) {
        assert d in decls[..k] || d == decls[k];
      }
    }
  }

  lemma {:induction false} OneMoreGives(info: Option<Info>, d: Decl, n: string, part: Part, x: string)
    ensures (With(info, d, n).Some? && InRecord(With(info, d, n).value, part, x))
       <==> (info.Some? && InRecord(info.value, part, x)) || Gives(d, n, part, x)
  {
  }

  lemma {:induction false} HostKnown(decls: seq<Decl>, h: string)
    ensures HostWithAll(None, decls, h).Some? <==> exists d | d in decls :: d.HostIn? && d.host == h
  {
    if decls != [] {
      var k := |decls| - 1;
      HostKnown(decls[..k], h);
      assert decls == decls[..k] + [decls[k]];
    }
  }

  /** Declared variables of a group: the last declaration, in the order of the walk,
      that gives a key wins. */
  lemma {:induction false} LastGroupVarsWin(decls: seq<Decl>, n: string, i: nat, key: string)
    requires i < |decls| && decls[i].VarsOf? && decls[i].group == n && decls[i].kept && key in decls[i].vars
    requires forall j | i < j < |decls| && decls[j].VarsOf? && decls[j].group == n && decls[j].kept :: key !in decls[j].vars
    ensures WithAll(None, decls, n).Some? && key in WithAll(None, decls, n).value.vars
    ensures WithAll(None, decls, n).value.vars[key] == decls[i].vars[key]
  {
    var k := |decls| - 1;
    if i < k {
      LastGroupVarsWin(decls[..k], n, i, key);
    }
  }

  /** The same for a host's variables in line. */
  lemma {:induction false} LastHostVarsWin(decls: seq<Decl>, h: string, i: nat, key: string)
    requires i < |decls| && decls[i].HostIn? && decls[i].host == h && key in decls[i].vars
    requires forall j | i < j < |decls| && decls[j].HostIn? && decls[j].host == h :: key !in decls[j].vars
    ensures HostWithAll(None, decls, h).Some? && key in HostWithAll(None, decls, h).value.vars
    ensures HostWithAll(None, decls, h).value.vars[key] == decls[i].vars[key]
  {
    var k := |decls| - 1;
    if i < k {
      LastHostVarsWin(decls[..k], h, i, key);
    }
  }

  // ----- the main result -----

  predicate Has(g: Group, part: Part, x: string) {
    match part
    case HostPart => x in g.hosts
    case ChildPart => x in g.children
    case VarPart => g.vars.Some? && x in g.vars.value
  }

  function FileVars(file: FileText): HostVars {
    if file.Tree? then VarsIn(file.value) else map[]
  }

  /** A file about the group sets the variable. */
  predicate FileGives(files: map<string, seq<FileText>>, n: string, key: string) {
    n in files && exists i | 0 <= i < |files[n]| :: key in FileVars(files[n][i])
  }

  /** A group's hosts, children and variables, and the hosts of the dataset, place by
      place. */
  ghost predicate SaysWhatIsDeclared(root: Json, files: map<string, seq<FileText>>, d: Dataset) {
    && (forall n :: n in d.groups <==> n != "ungrouped" && exists path :: OutermostSite(root, path, n))
    && (forall n | n in d.groups :: Ascending(d.groups[n].hosts) && Ascending(d.groups[n].children))
    && (forall n, part, x | n in d.groups ::
          Has(d.groups[n], part, x) <==>
            (exists path :: OutermostPartAt(root, path, n, part, x)) || (part.VarPart? && FileGives(files, n, x)))
    && (forall h :: h in d.hostvars <==> exists path, n :: PartAt(root, path, n, HostPart, h))
  }

  lemma GroupExists(root: Json, n: string)
    requires root.Obj?
    ensures (exists d | d in AllDecls(root) :: d.group == n && d.kept) <==> exists path :: OutermostSite(root, path, n)
  {
    if d :| d in AllDecls(root) && d.group == n && d.kept {
      DeclsAreSites(root, d);
      var path :| DeclaredAt(root, path, d);
      assert OutermostSite(root, path, n);
    }
    if path :| OutermostSite(root, path, n) {
      var d := Declared(n, true);
      assert DeclaredAt(root, path, d);
      DeclsAreSites(root, d);
    }
  }

  lemma GroupHasPart(root: Json, n: string, part: Part, x: string)
    requires root.Obj?
    ensures (exists d | d in AllDecls(root) :: Gives(d, n, part, x)) <==> exists path :: OutermostPartAt(root, path, n, part, x)
  {
    if d :| d in AllDecls(root) && Gives(d, n, part, x) {
      DeclsAreSites(root, d);
      var path :| DeclaredAt(root, path, d);
      assert OutermostPartAt(root, path, n, part, x);
    }
    if path :| OutermostPartAt(root, path, n, part, x) {
      var node := SiteAt(root.fields, path).value;
      var d := match part
        case HostPart => HostIn(n, true, x, VarsIn(HostsOf(node)[x]))
        case ChildPart => ChildOf(n, true, x)
        case VarPart => VarsOf(n, true, PartOf(node, VarPart));
      assert DeclaredAt(root, path, d);
      DeclsAreSites(root, d);
    }
  }

  lemma HostExists(root: Json, h: string)
    requires root.Obj?
    ensures (exists d | d in AllDecls(root) :: d.HostIn? && d.host == h)
       <==> exists path, n :: PartAt(root, path, n, HostPart, h)
  {
    if d :| d in AllDecls(root) && d.HostIn? && d.host == h {
      DeclsAreSites(root, d);
      var path :| DeclaredAt(root, path, d);
      assert PartAt(root, path, d.group, HostPart, h);
    }
    if path, n :| PartAt(root, path, n, HostPart, h) {
      var d := HostIn(n, KeptAt(path, {}), h, VarsIn(HostsOf(SiteAt(root.fields, path).value)[h]));
      assert DeclaredAt(root, path, d);
      DeclsAreSites(root, d);
    }
  }

  lemma GroupSays(root: Json, groups: map<string, Group>, vars: map<string, HostVars>, n: string)
    requires root.Obj? && GroupsAssembled(groups, AllDecls(root), vars)
    ensures n in groups <==> n != "ungrouped" && exists path :: OutermostSite(root, path, n)
    ensures n in groups ==> Ascending(groups[n].hosts) && Ascending(groups[n].children)
  {
    hide AllDecls, WithAll, OutermostSite, Listing;
    RecordExists(AllDecls(root), n);
    GroupExists(root, n);
  }

  lemma GroupPartSays(root: Json, groups: map<string, Group>, vars: map<string, HostVars>, n: string, part: Part, x: string)
    requires root.Obj? && GroupsAssembled(groups, AllDecls(root), vars) && n in groups
    ensures Has(groups[n], part, x) <==>
            (exists path :: OutermostPartAt(root, path, n, part, x)) || (part.VarPart? && x in Extra(vars, n))
  {
    hide AllDecls, WithAll, OutermostPartAt, Listing;
    RecordHolds(AllDecls(root), n, part, x);
    GroupHasPart(root, n, part, x);
  }

  lemma {:induction false} MergedHolds(parts: seq<FileText>, key: string)
    requires forall i | 0 <= i < |parts| :: HoldsVars(parts[i])
    ensures key in Merged(parts) <==> exists i | 0 <= i < |parts| :: key in FileVars(parts[i])
  {
    if parts != [] {
      var k := |parts| - 1;
      MergedHolds(parts[..k], key);
      assert HoldsVars(parts[k]);
      assert forall i | 0 <= i < k :: parts[..k][i] == parts[i];
    }
  }

  lemma FilesSay(files: map<string, seq<FileText>>, vars: map<string, HostVars>, n: string, key: string)
    requires FilesFormed(files) && MergedAll(files, vars)
    ensures key in Extra(vars, n) <==> FileGives(files, n, key)
  {
    if n in files {
      MergedHolds(files[n], key);
    }
  }

  lemma HostsSay(root: Json, hostvars: map<string, HostVars>, vars: map<string, HostVars>, h: string)
    requires root.Obj? && HostsAssembled(hostvars, AllDecls(root), vars)
    ensures h in hostvars <==> exists path, n :: PartAt(root, path, n, HostPart, h)
  {
    hide AllDecls, HostWithAll, PartAt;
    HostKnown(AllDecls(root), h);
    HostExists(root, h);
  }

  lemma AssembledParts(d: Dataset, decls: seq<Decl>, groupFiles: map<string, HostVars>, hostFiles: map<string, HostVars>)
    requires IsAssembled(d, decls, groupFiles, hostFiles)
    ensures HostsAssembled(d.hostvars, decls, hostFiles) && GroupsAssembled(d.groups, decls, groupFiles)
  {
  }

  /** For every document that is accepted: a group's hosts and children are the
      sorted union over its declarations that are not nested inside a group of its
      own name, its variables are those declared there or set by its files, and the
      hosts are those declared anywhere. */
  lemma ParsedSaysWhatIsDeclared(input: Input, d: Dataset, strays: set<string>)
    requires Acceptable(input) && IsParsed(input, d, strays)
    ensures SaysWhatIsDeclared(input.inventory.value, input.groupVars, d)
  {
    hide AllDecls, GroupsAssembled, HostsAssembled, WellFormed, FilesFormed, MergedAll, Strays, OutermostSite, OutermostPartAt, PartAt, FileGives, Has;
    var root := input.inventory.value;
    var groupFiles: map<string, HostVars>, hostFiles: map<string, HostVars> :|
      MergedAll(input.groupVars, groupFiles) && IsAssembled(d, AllDecls(root), groupFiles, hostFiles);
    AssembledParts(d, AllDecls(root), groupFiles, hostFiles);
    forall n {:trigger n in d.groups} {:trigger d.groups[n]}
      ensures n in d.groups <==> n != "ungrouped" && exists path :: OutermostSite(root, path, n)
      ensures n in d.groups ==> Ascending(d.groups[n].hosts) && Ascending(d.groups[n].children)
    {
      GroupSays(root, d.groups, groupFiles, n);
    }
    forall n, part, x | n in d.groups
      ensures Has(d.groups[n], part, x) <==>
              (exists path :: OutermostPartAt(root, path, n, part, x)) || (part.VarPart? && FileGives(input.groupVars, n, x))
    {
      GroupPartSays(root, d.groups, groupFiles, n, part, x);
      FilesSay(input.groupVars, groupFiles, n, x);
    }
    forall h
      ensures h in d.hostvars <==> exists path, n :: PartAt(root, path, n, HostPart, h)
    {
      HostsSay(root, d.hostvars, hostFiles, h);
    }
  }

  // ----- what a variable's value is -----

  lemma {:induction false} LastFileWins(parts: seq<FileText>, i: nat, key: string)
    requires forall j | 0 <= j < |parts| :: HoldsVars(parts[j])
    requires i < |parts| && key in FileVars(parts[i])
    requires forall j | i < j < |parts| :: key !in FileVars(parts[j])
    ensures key in Merged(parts) && Merged(parts)[key] == FileVars(parts[i])[key]
  {
    var k := |parts| - 1;
    if i < k {
      LastFileWins(parts[..k], i, key);
      assert key !in FileVars(parts[k]);
    }
  }

  /** An assembled group's variable comes from its files, or from its record. */
  lemma AssembledVar(groups: map<string, Group>, decls: seq<Decl>, vars: map<string, HostVars>, n: string, key: string)
    requires GroupsAssembled(groups, decls, vars) && n in groups
    ensures key in Extra(vars, n) ==> Has(groups[n], VarPart, key) && groups[n].vars.value[key] == Extra(vars, n)[key]
    ensures key !in Extra(vars, n) && InRecord(WithAll(None, decls, n).value, VarPart, key) ==>
              Has(groups[n], VarPart, key) && groups[n].vars.value[key] == WithAll(None, decls, n).value.vars[key]
  {
    hide WithAll, Listing;
  }

  /** A variable in the group's files has the value of the last file that sets it. */
  lemma GroupFilesOverride(input: Input, d: Dataset, strays: set<string>, n: string, i: nat, key: string)
    requires Acceptable(input) && IsParsed(input, d, strays)
    requires n in d.groups && n in input.groupVars && i < |input.groupVars[n]| && key in FileVars(input.groupVars[n][i])
    requires forall j | i < j < |input.groupVars[n]| :: key !in FileVars(input.groupVars[n][j])
    ensures Has(d.groups[n], VarPart, key)
    ensures d.groups[n].vars.value[key] == FileVars(input.groupVars[n][i])[key]
  {
    hide AllDecls, GroupsAssembled, HostsAssembled, WellFormed, Strays, FileVars, Has;
    var root := input.inventory.value;
    var groupFiles: map<string, HostVars>, hostFiles: map<string, HostVars> :|
      MergedAll(input.groupVars, groupFiles) && IsAssembled(d, AllDecls(root), groupFiles, hostFiles);
    AssembledParts(d, AllDecls(root), groupFiles, hostFiles);
    LastFileWins(input.groupVars[n], i, key);
    AssembledVar(d.groups, AllDecls(root), groupFiles, n, key);
  }

  /** Any other has the value of the last declaration of the group, in the order of
      the walk, that gives it. */
  lemma GroupDeclarationStands(input: Input, d: Dataset, strays: set<string>, n: string, i: nat, key: string)
    requires Acceptable(input) && IsParsed(input, d, strays)
    requires n in d.groups && !FileGives(input.groupVars, n, key)
    requires var decls := AllDecls(input.inventory.value);
             && i < |decls| && decls[i].VarsOf? && Gives(decls[i], n, VarPart, key)
             && forall j | i < j < |decls| :: !Gives(decls[j], n, VarPart, key)
    ensures Has(d.groups[n], VarPart, key)
    ensures d.groups[n].vars.value[key] == AllDecls(input.inventory.value)[i].vars[key]
  {
    hide AllDecls, GroupsAssembled, HostsAssembled, WellFormed, Strays, FilesFormed, MergedAll, FileGives, Has, WithAll;
    var root := input.inventory.value;
    var groupFiles: map<string, HostVars>, hostFiles: map<string, HostVars> :|
      MergedAll(input.groupVars, groupFiles) && IsAssembled(d, AllDecls(root), groupFiles, hostFiles);
    AssembledParts(d, AllDecls(root), groupFiles, hostFiles);
    FilesSay(input.groupVars, groupFiles, n, key);
    LastGroupVarsWin(AllDecls(root), n, i, key);
    AssembledVar(d.groups, AllDecls(root), groupFiles, n, key);
  }

  // ----- when nothing is lost -----

  /** No group is nested inside a group of its own name, at any depth. */
  ghost predicate NoSelfNesting(root: Json) {
    forall path, n | Site(root, path, n) :: n !in path[..|path| - 1]
  }

  /** Every host, child and variable declared for a group, anywhere, is in that group. */
  ghost predicate Lossless(root: Json, d: Dataset) {
    forall path, n, part, x | n != "ungrouped" && PartAt(root, path, n, part, x) ::
      n in d.groups && Has(d.groups[n], part, x)
  }

  /** Nothing is declared only inside a group of the same name (or, for a variable,
      set by a file about the group all the same). */
  ghost predicate NothingOnlyInsideItself(root: Json, files: map<string, seq<FileText>>) {
    forall path, n, part, x | n != "ungrouped" && PartAt(root, path, n, part, x) ::
      (exists other :: OutermostPartAt(root, other, n, part, x)) || (part.VarPart? && FileGives(files, n, x))
  }

  /** Without self-nesting no host, child or variable is lost; and in general none is
      exactly when nothing is declared only inside a group of the same name. */
  lemma NoSelfNestingLosesNothing(root: Json, files: map<string, seq<FileText>>, d: Dataset)
    requires SaysWhatIsDeclared(root, files, d)
    ensures NoSelfNesting(root) ==> Lossless(root, d)
    ensures Lossless(root, d) <==> NothingOnlyInsideItself(root, files)
  {
    hide Has, PartOf, FileGives;
    if NoSelfNesting(root) {
      forall path, n, part, x | n != "ungrouped" && PartAt(root, path, n, part, x)
        ensures OutermostPartAt(root, path, n, part, x)
      {
      }
    }
    forall path, n, part, x | n != "ungrouped" && PartAt(root, path, n, part, x)
      ensures n in d.groups
    {
      SomeSiteIsOutermost(root, path, n);
    }
    forall path, n, part, x | n != "ungrouped" && PartAt(root, path, n, part, x)
      ensures Has(d.groups[n], part, x) <==>
              (exists other :: OutermostPartAt(root, other, n, part, x)) || (part.VarPart? && FileGives(files, n, x))
    {
    }
  }

  /** The way to a declaration of a group leads through an outermost one. */
  lemma {:induction false} SomeSiteIsOutermost(root: Json, path: seq<string>, n: string)
    requires Site(root, path, n)
    ensures exists other :: OutermostSite(root, other, n)
    decreases |path|
  {
    var k := |path| - 1;
    if n in path[..k] {
      var i :| 0 <= i < k && path[i] == n;
      PrefixIsASite(root.fields, path, i + 1);
      SomeSiteIsOutermost(root, path[..i + 1], n);
    } else {
      assert OutermostSite(root, path, n);
    }
  }

  lemma {:induction false} PrefixIsASite(groups: map<string, Json>, path: seq<string>, k: nat)
    requires 0 < k <= |path| && SiteAt(groups, path).Some?
    ensures SiteAt(groups, path[..k]).Some?
    decreases |path|
  {
    if k > 1 {
      PrefixIsASite(ChildrenOf(groups[path[0]]), path[1..], k - 1);
      assert path[..k][1..] == path[1..][..k - 1];
    }
  }

  /** A group inside itself loses its host, its child and its variable; the host is
      emitted, in no group. */
  lemma SelfNestingLosesAll(files: map<string, seq<FileText>>, d: Dataset)
    requires SaysWhatIsDeclared(SelfNested(), files, d) && "g" !in files
    ensures "h" in d.hostvars && "g" in d.groups
    ensures !Has(d.groups["g"], HostPart, "h") && !Has(d.groups["g"], ChildPart, "c") && !Has(d.groups["g"], VarPart, "v")
  {
    hide PartAt, OutermostPartAt, OutermostSite, FileGives;
    SelfNestedSites();
    assert !FileGives(files, "g", "v") by {
      NoFile(files, "g", "v");
    }
    forall path, part: Part, x | part.HostPart? || x != "g"
      ensures !OutermostPartAt(SelfNested(), path, "g", part, x)
    {
      OuterDeclaresOnlyItself(path, part, x);
    }
  }

  lemma NoFile(files: map<string, seq<FileText>>, n: string, key: string)
    requires n !in files
    ensures !FileGives(files, n, key)
  {
  }

  lemma SelfNestedSites()
    ensures PartAt(SelfNested(), ["g", "g"], "g", HostPart, "h")
    ensures OutermostSite(SelfNested(), ["g"], "g")
  {
    var root := SelfNested();
    var short, long := ["g"], ["g", "g"];
    assert long[1..] == short && short[..0] == [];
    assert SiteAt(ChildrenOf(root.fields["g"]), short) == Some(Inner());
    assert SiteAt(root.fields, long) == Some(Inner());
  }

  lemma OuterDeclaresOnlyItself(path: seq<string>, part: Part, x: string)
    requires part.HostPart? || x != "g"
    ensures !OutermostPartAt(SelfNested(), path, "g", part, x)
  {
    var outer := SelfNested().fields["g"];
    assert PartOf(outer, HostPart) == map[] && PartOf(outer, VarPart) == map[] && PartOf(outer, ChildPart).Keys == {"g"};
    if |path| > 1 {
      assert path[..|path| - 1][0] == path[0];
    }
  }

  function Inner(): Json {
    Obj(map["hosts" := Obj(map["h" := Null]), "children" := Obj(map["c" := Null]), "vars" := Obj(map["v" := Null])])
  }

  function SelfNested(): (root: Json)
    ensures root.Obj?
  {
    Obj(map["g" := Obj(map["children" := Obj(map["g" := Inner()])])])
  }

  // ----- which documents are accepted -----

  /** What is asked of one group's own node. */
  predicate NodeFormed(node: Json) {
    || node.Null?
    || (&& node.Obj?
        && (forall key | key in node.fields :: key == "hosts" || key == "children" || key == "vars")
        && ("hosts" in node.fields ==>
              node.fields["hosts"].Obj?
              && forall h | h in node.fields["hosts"].fields ::
                   '[' !in h && (node.fields["hosts"].fields[h].Null? || node.fields["hosts"].fields[h].Obj?))
        && ("children" in node.fields ==> node.fields["children"].Obj?)
        && ("vars" in node.fields ==> node.fields["vars"].Null? || node.fields["vars"].Obj?))
  }

  lemma {:induction false} FormedHere(node: Json)
    ensures WellFormed(node) <==> NodeFormed(node) && forall c | c in ChildrenOf(node) :: WellFormed(ChildrenOf(node)[c])
  {
    if WellFormed(node) && node.Obj? {
      forall key | key in node.fields
        ensures SectionFormed(key, node.fields[key])
      {
      }
    }
    if node.Obj? && NodeFormed(node) && forall c | c in ChildrenOf(node) :: WellFormed(ChildrenOf(node)[c]) {
      forall key | key in node.fields
        ensures SectionFormed(key, node.fields[key])
      {
        if key == "children" {
          assert ChildrenOf(node) == node.fields[key].fields;
        }
      }
    }
  }

  lemma {:induction false} FormedEverywhere(groups: map<string, Json>, path: seq<string>)
    requires (forall c | c in groups :: WellFormed(groups[c])) && SiteAt(groups, path).Some?
    ensures NodeFormed(SiteAt(groups, path).value)
    decreases |path|
  {
    hide WellFormed, NodeFormed;
    FormedHere(groups[path[0]]);
    if |path| > 1 {
      FormedEverywhere(ChildrenOf(groups[path[0]]), path[1..]);
    }
  }

  lemma {:induction false} FormedFromSites(groups: map<string, Json>, c: string)
    requires c in groups && forall path | SiteAt(groups, path).Some? :: NodeFormed(SiteAt(groups, path).value)
    ensures WellFormed(groups[c])
    decreases groups[c]
  {
    hide WellFormed, NodeFormed;
    var node := groups[c];
    assert SiteAt(groups, [c]) == Some(node);
    FormedHere(node);
    forall child | child in ChildrenOf(node)
      ensures WellFormed(ChildrenOf(node)[child])
    {
      forall path | SiteAt(ChildrenOf(node), path).Some?
        ensures NodeFormed(SiteAt(ChildrenOf(node), path).value)
      {
        assert ([c] + path)[1..] == path && ([c] + path)[0] == c;
        assert SiteAt(groups, [c] + path) == SiteAt(ChildrenOf(node), path);
      }
      FormedFromSites(ChildrenOf(node), child);
    }
  }

  ghost predicate AllNodesFormed(groups: map<string, Json>) {
    forall path | SiteAt(groups, path).Some? :: NodeFormed(SiteAt(groups, path).value)
  }

  lemma {:induction false} AllFormedIffSitesAre(groups: map<string, Json>)
    ensures (forall c | c in groups :: WellFormed(groups[c])) <==> AllNodesFormed(groups)
  {
    hide WellFormed, NodeFormed, SiteAt;
    if forall c | c in groups :: WellFormed(groups[c]) {
      forall path | SiteAt(groups, path).Some?
        ensures NodeFormed(SiteAt(groups, path).value)
      {
        FormedEverywhere(groups, path);
      }
    }
    if AllNodesFormed(groups) {
      forall c | c in groups
        ensures WellFormed(groups[c])
      {
        FormedFromSites(groups, c);
      }
    }
  }

  /** A document is accepted exactly when it is a mapping and every group in it, at every
      place, is empty or a mapping of hosts, children and vars, each of its shape, with
      no range for a host name. */
  lemma {:induction false} AcceptedIffFormedEverywhere(root: Json)
    ensures RootFormed(root) <==> root.Obj? && AllNodesFormed(root.fields)
  {
    hide WellFormed, AllNodesFormed;
    if root.Obj? {
      AllFormedIffSitesAre(root.fields);
    }
  }

  /** The file is empty or a mapping, in the clear. */
  ghost predicate IsVarsFile(file: FileText) {
    file == Tree(Null) || exists vars :: file == Tree(Obj(vars))
  }

  /** An input is accepted exactly when its inventory is such a document, in the clear, and
      every variable file about a group or a host is empty or a mapping. */
  lemma {:induction false} InputAcceptedIff(input: Input)
    ensures Acceptable(input) <==>
            && (exists groups :: input.inventory == Tree(Obj(groups)) && AllNodesFormed(groups))
            && (forall n, i | n in input.groupVars && 0 <= i < |input.groupVars[n]| :: IsVarsFile(input.groupVars[n][i]))
            && (forall n, i | n in input.hostVars && 0 <= i < |input.hostVars[n]| :: IsVarsFile(input.hostVars[n][i]))
  {
    hide WellFormed, AllNodesFormed, RootFormed;
    if input.inventory.Tree? {
      AcceptedIffFormedEverywhere(input.inventory.value);
    }
    forall file: FileText
      ensures IsVarsFile(file) <==> HoldsVars(file)
    {
      if file.Tree? && file.value.Obj? {
        assert file == Tree(Obj(file.value.fields));
      }
    }
  }

  // ----- names and hosts -----

  /** The names reported are those of variable files about a group (other than `all`) or a
      host that the document declares nowhere. */
  lemma StraysAreDeclaredNowhere(input: Input, d: Dataset, strays: set<string>, name: string)
    requires Acceptable(input) && IsParsed(input, d, strays)
    ensures var root := input.inventory.value;
            name in strays <==>
              || (name in input.groupVars && name != "all" && forall path :: !OutermostSite(root, path, name))
              || (name in input.hostVars && forall path, n :: !PartAt(root, path, n, HostPart, name))
  {
    hide AllDecls, GroupsAssembled, HostsAssembled, WellFormed, FilesFormed, OutermostSite, PartAt, WithAll, HostWithAll;
    var root := input.inventory.value;
    var groupFiles: map<string, HostVars>, hostFiles: map<string, HostVars> :|
      && MergedAll(input.groupVars, groupFiles) && MergedAll(input.hostVars, hostFiles)
      && strays == Strays(AllDecls(root), groupFiles.Keys, hostFiles.Keys);
    RecordExists(AllDecls(root), name);
    GroupExists(root, name);
    HostKnown(AllDecls(root), name);
    HostExists(root, name);
  }

  /** A host's variable: the last of its files that sets it, or else its last declaration
      in line, in the order of the walk; and it has no other. */
  lemma HostFilesOverride(input: Input, d: Dataset, strays: set<string>, h: string, i: nat, key: string)
    requires Acceptable(input) && IsParsed(input, d, strays)
    requires h in d.hostvars && h in input.hostVars && i < |input.hostVars[h]| && key in FileVars(input.hostVars[h][i])
    requires forall j | i < j < |input.hostVars[h]| :: key !in FileVars(input.hostVars[h][j])
    ensures key in d.hostvars[h] && d.hostvars[h][key] == FileVars(input.hostVars[h][i])[key]
  {
    hide AllDecls, GroupsAssembled, WellFormed, Strays, FileVars, HostWithAll;
    var root := input.inventory.value;
    var groupFiles: map<string, HostVars>, hostFiles: map<string, HostVars> :|
      MergedAll(input.hostVars, hostFiles) && IsAssembled(d, AllDecls(root), groupFiles, hostFiles);
    LastFileWins(input.hostVars[h], i, key);
  }

  lemma HostDeclarationStands(input: Input, d: Dataset, strays: set<string>, h: string, i: nat, key: string)
    requires Acceptable(input) && IsParsed(input, d, strays)
    requires h in d.hostvars && !FileGives(input.hostVars, h, key)
    requires var decls := AllDecls(input.inventory.value);
             && i < |decls| && decls[i].HostIn? && decls[i].host == h && key in decls[i].vars
             && forall j | i < j < |decls| && decls[j].HostIn? && decls[j].host == h :: key !in decls[j].vars
    ensures key in d.hostvars[h] && d.hostvars[h][key] == AllDecls(input.inventory.value)[i].vars[key]
  {
    hide AllDecls, GroupsAssembled, WellFormed, Strays, FileGives, HostWithAll, FilesFormed, MergedAll;
    var root := input.inventory.value;
    var groupFiles: map<string, HostVars>, hostFiles: map<string, HostVars> :|
      MergedAll(input.hostVars, hostFiles) && IsAssembled(d, AllDecls(root), groupFiles, hostFiles);
    FilesSay(input.hostVars, hostFiles, h, key);
    LastHostVarsWin(AllDecls(root), h, i, key);
    AssembledParts(d, AllDecls(root), groupFiles, hostFiles);
    assert d.hostvars[h] == HostWithAll(None, AllDecls(root), h).value.vars + Extra(hostFiles, h);
  }

  /** A group without variables has none, not an empty map of them. */
  lemma NoEmptyVars(input: Input, d: Dataset, strays: set<string>, n: string)
    requires Acceptable(input) && IsParsed(input, d, strays) && n in d.groups
    ensures d.groups[n].vars != Some(map[]) && d.removeHosts == []
  {
    hide AllDecls, HostsAssembled, GroupsAssembled, WellFormed, Strays, FilesFormed, MergedAll, WithAll;
    var root := input.inventory.value;
    var groupFiles: map<string, HostVars>, hostFiles: map<string, HostVars> :|
      IsAssembled(d, AllDecls(root), groupFiles, hostFiles);
    AssembledParts(d, AllDecls(root), groupFiles, hostFiles);
    AssembledHasNoEmptyVars(d.groups, AllDecls(root), groupFiles, n);
  }

  lemma AssembledHasNoEmptyVars(groups: map<string, Group>, decls: seq<Decl>, vars: map<string, HostVars>, n: string)
    requires GroupsAssembled(groups, decls, vars) && n in groups
    ensures groups[n].vars != Some(map[])
  {
    hide WithAll, Listing;
  }
}
