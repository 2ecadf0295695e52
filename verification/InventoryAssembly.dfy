/** Hosts and groups put together from what the walk over a static inventory
    collected and from the variable files (src/domain/static_inventory.rs:42-168,
    276-295). */
module InventoryAssembly {
  import opened Text
  import opened Json
  import opened Datasets
  import opened StaticInventory

  /** What became of a file's text: it is encrypted, it is no YAML, or a tree. */
  datatype FileText = Vaulted | Broken | Tree(value: Json)

  /** The inventory, and for groups and hosts the files about them, in merge order. */
  datatype Input = Input(
    inventory: FileText,
    groupVars: map<string, seq<FileText>>,
    hostVars: map<string, seq<FileText>>)

  predicate HoldsVars(file: FileText) {
    file.Tree? && IsVars(file.value)
  }

  predicate FilesFormed(files: map<string, seq<FileText>>) {
    forall n | n in files :: forall i | 0 <= i < |files[n]| :: HoldsVars(files[n][i])
  }

  /** Files merged in order: a later one's value wins. */
  function Merged(parts: seq<FileText>): HostVars
    requires forall i | 0 <= i < |parts| :: HoldsVars(parts[i])
  {
    if parts == [] then map[]
    else
      assert HoldsVars(parts[|parts| - 1]);
      Merged(parts[..|parts| - 1]) + VarsIn(parts[|parts| - 1].value)
  }

  method MergeParts(name: string, parts: seq<FileText>) returns (r: Result<HostVars, Fault>)
    ensures r.Ok? <==> forall i | 0 <= i < |parts| :: HoldsVars(parts[i])
    ensures r.Ok? ==> r.value == Merged(parts)
  {
    var vars: HostVars := map[];
    for i := 0 to |parts|
      invariant forall j | 0 <= j < i :: HoldsVars(parts[j])
      invariant vars == Merged(parts[..i])
    {
      if !HoldsVars(parts[i]) {
        return Err(Unreadable(name));
      }
      assert parts[..i + 1][..i] == parts[..i];
      vars := vars + VarsIn(parts[i].value);
    }
    assert parts[..|parts|] == parts;
    r := Ok(vars);
  }

  /** The merged variables of each name. */
  ghost predicate MergedAll(files: map<string, seq<FileText>>, vars: map<string, HostVars>)
    requires FilesFormed(files)
  {
    vars.Keys == files.Keys && forall n | n in files :: vars[n] == Merged(files[n])
  }

  method ParseFiles(files: map<string, seq<FileText>>) returns (r: Result<map<string, HostVars>, Fault>)
    ensures r.Ok? <==> FilesFormed(files)
    ensures r.Ok? ==> MergedAll(files, r.value)
  {
    var parsed: map<string, HostVars> := map[];
    var todo := files.Keys;
    while todo != {}
      invariant todo <= files.Keys && parsed.Keys == files.Keys - todo
      invariant forall n | n in files && n !in todo :: forall i | 0 <= i < |files[n]| :: HoldsVars(files[n][i])
      invariant forall n | n in parsed :: parsed[n] == Merged(files[n])
      decreases todo
    {
      var n :| n in todo;
      var merged := MergeParts(n, files[n]);
      if merged.Err? {
        assert !FilesFormed(files);
        return Err(merged.error);
      }
      parsed, todo := parsed[n := merged.value], todo - {n};
    }
    r := Ok(parsed);
  }

  predicate RootFormed(root: Json) {
    root.Obj? && forall n | n in root.fields :: WellFormed(root.fields[n])
  }

  ghost function AllDecls(root: Json): seq<Decl>
    requires root.Obj?
  {
    RootDecls(root, Listing(root.fields.Keys))
  }

  ghost predicate Holds(c: Collected, decls: seq<Decl>) {
    && (forall n :: Look(c, n) == WithAll(None, decls, n))
    && (forall h :: LookHost(c, h) == HostWithAll(None, decls, h))
  }

  const NOBODY := Collected(map[], map[], map[])

  lemma GrownFromNothing(c: Collected, decls: seq<Decl>)
    requires Grown(NOBODY, c, decls, {})
    ensures Holds(c, decls)
  {
    forall n
      ensures Look(c, n) == WithAll(None, decls, n)
    {
      assert n !in {};
      assert Look(NOBODY, n) == None;
    }
    forall h
      ensures LookHost(c, h) == HostWithAll(None, decls, h)
    {
      assert LookHost(NOBODY, h) == None;
    }
  }

  lemma RootVisited(before: Collected, now: Collected, root: Json, names: seq<string>, i: nat)
    requires root.Obj? && i < |names| && forall n | n in names :: n in root.fields
    requires Grown(NOBODY, before, RootDecls(root, names[..i]), {})
    requires Grown(before, now, Decls(names[i], root.fields[names[i]], {}), {})
    ensures Grown(NOBODY, now, RootDecls(root, names[..i + 1]), {})
  {
    hide Grown, Decls;
    GrownTwice(NOBODY, before, now, RootDecls(root, names[..i]), Decls(names[i], root.fields[names[i]], {}), {});
    assert names[..i + 1][..i] == names[..i];
  }

  /** The walk over the whole document. */
  method Collect(root: Json) returns (r: Result<Collected, Fault>)
    ensures r.Ok? <==> RootFormed(root)
    ensures r.Ok? ==> Holds(r.value, AllDecls(root))
  {
    hide Grown, Decls, Holds, WellFormed;
    if !root.Obj? {
      return Err(NotAMapping("inventory"));
    }
    var walk := new Walk();
    var names := List(root.fields.Keys);
    NothingGrown(NOBODY, {});
    for i := 0 to |names|
      invariant walk.Valid()
      invariant forall j | 0 <= j < i :: WellFormed(root.fields[names[j]])
      invariant Grown(NOBODY, walk.Now(), RootDecls(root, names[..i]), {})
    {
      ghost var before := walk.Now();
      var visited := walk.Group(names[i], root.fields[names[i]], {});
      if visited.Err? {
        return Err(visited.error);
      }
      RootVisited(before, walk.Now(), root, names, i);
    }
    assert names[..|names|] == names;
    GrownFromNothing(walk.Now(), AllDecls(root));
    r := Ok(Collected(walk.groups, walk.memberships, walk.inlineVars));
  }

  // ----- assembly -----

  function Extra(files: map<string, HostVars>, name: string): HostVars {
    if name in files then files[name] else map[]
  }

  ghost function Assembled(info: Info, files: HostVars): Group {
    var vars := info.vars + files;
    Group(Listing(Elements(info.hosts)), Listing(Elements(info.children)), if vars == map[] then None else Some(vars))
  }

  /** Every host that is declared, with its own variables overridden by its files'. */
  ghost predicate HostsAssembled(hostvars: map<string, HostVars>, decls: seq<Decl>, files: map<string, HostVars>) {
    && (forall h :: h in hostvars <==> HostWithAll(None, decls, h).Some?)
    && (forall h | h in hostvars :: hostvars[h] == HostWithAll(None, decls, h).value.vars + Extra(files, h))
  }

  /** Every group but `ungrouped`, with its hosts and children sorted, none twice,
      and its variables overridden by its files'. */
  ghost predicate GroupsAssembled(groups: map<string, Group>, decls: seq<Decl>, files: map<string, HostVars>) {
    && (forall n :: n in groups <==> n != "ungrouped" && WithAll(None, decls, n).Some?)
    && (forall n | n in groups :: groups[n] == Assembled(WithAll(None, decls, n).value, Extra(files, n)))
  }

  ghost predicate IsAssembled(d: Dataset, decls: seq<Decl>, groupFiles: map<string, HostVars>, hostFiles: map<string, HostVars>) {
    && d.removeHosts == []
    && HostsAssembled(d.hostvars, decls, hostFiles)
    && GroupsAssembled(d.groups, decls, groupFiles)
  }

  method AssembleGroup(info: Info, files: HostVars) returns (group: Group)
    ensures group == Assembled(info, files)
  {
    hide Listing, Sort, Dedup;
    var vars := info.vars + files;
    SortDedupIsListing(info.hosts);
    SortDedupIsListing(info.children);
    group := Group(Dedup(Sort(info.hosts)), Dedup(Sort(info.children)), if vars == map[] then None else Some(vars));
  }

  method AssembleGroups(c: Collected, ghost decls: seq<Decl>, files: map<string, HostVars>)
    returns (groups: map<string, Group>)
    requires Holds(c, decls)
    ensures GroupsAssembled(groups, decls, files)
  {
    hide Assembled, WithAll, HostWithAll, Holds;
    TablesShow(c, decls);
    groups := map[];
    var todo := c.groups.Keys;
    while todo != {}
      invariant todo <= c.groups.Keys
      invariant groups.Keys == c.groups.Keys - todo - {"ungrouped"}
      invariant forall n | n in groups :: groups[n] == Assembled(c.groups[n], Extra(files, n))
      decreases todo
    {
      var n :| n in todo;
      todo := todo - {n};
      if n != "ungrouped" {
        var group := AssembleGroup(c.groups[n], Extra(files, n));
        groups := groups[n := group];
      }
    }
  }

  method AssembleHosts(c: Collected, ghost decls: seq<Decl>, files: map<string, HostVars>)
    returns (hostvars: map<string, HostVars>)
    requires Holds(c, decls)
    ensures HostsAssembled(hostvars, decls, files)
  {
    hide WithAll, HostWithAll, Holds;
    TablesShow(c, decls);
    hostvars := map[];
    var todo := c.memberships.Keys;
    while todo != {}
      invariant todo <= c.memberships.Keys && hostvars.Keys == c.memberships.Keys - todo
      invariant forall h | h in hostvars :: hostvars[h] == LookHost(c, h).value.vars + Extra(files, h)
      decreases todo
    {
      var h :| h in todo;
      var vars: HostVars := map[];
      if h in c.inlineVars {
        vars := vars + c.inlineVars[h];
        assert vars == c.inlineVars[h];
      }
      hostvars, todo := hostvars[h := vars + Extra(files, h)], todo - {h};
    }
  }

  method Assemble(c: Collected, ghost decls: seq<Decl>, groupFiles: map<string, HostVars>, hostFiles: map<string, HostVars>)
    returns (d: Dataset, strays: set<string>)
    requires Holds(c, decls)
    ensures IsAssembled(d, decls, groupFiles, hostFiles)
    ensures strays == Strays(decls, groupFiles.Keys, hostFiles.Keys)
  {
    hide GroupsAssembled, HostsAssembled, Holds, WithAll, HostWithAll;
    TablesShow(c, decls);
    var groups := AssembleGroups(c, decls, groupFiles);
    var hostvars := AssembleHosts(c, decls, hostFiles);
    d := Dataset(hostvars, groups, []);
    strays := (set n | n in groupFiles && n !in c.groups && n != "all") + (set h | h in hostFiles && h !in c.memberships);
  }

  /** Names with variable files that are no declared group or host. */
  ghost function Strays(decls: seq<Decl>, groupFiles: set<string>, hostFiles: set<string>): set<string> {
    (set n | n in groupFiles && n != "all" && WithAll(None, decls, n) == None)
    + (set h | h in hostFiles && HostWithAll(None, decls, h) == None)
  }

  predicate Acceptable(input: Input) {
    && input.inventory.Tree? && RootFormed(input.inventory.value)
    && FilesFormed(input.groupVars) && FilesFormed(input.hostVars)
  }

  /** What reading the input gives: the assembled dataset and the stray names. */
  ghost predicate IsParsed(input: Input, d: Dataset, strays: set<string>)
    requires Acceptable(input)
  {
    exists groupFiles: map<string, HostVars>, hostFiles: map<string, HostVars> ::
      && MergedAll(input.groupVars, groupFiles) && MergedAll(input.hostVars, hostFiles)
      && IsAssembled(d, AllDecls(input.inventory.value), groupFiles, hostFiles)
      && strays == Strays(AllDecls(input.inventory.value), groupFiles.Keys, hostFiles.Keys)
  }

  method Parse(input: Input) returns (r: Result<Dataset, Fault>, strays: set<string>)
    ensures r.Ok? <==> Acceptable(input)
    ensures r.Ok? ==> IsParsed(input, r.value, strays)
  {
    hide WellFormed, MergedAll, IsAssembled, AllDecls, Strays, FilesFormed;
    strays := {};
    if !input.inventory.Tree? || !input.inventory.value.Obj? {
      return Err(NotAMapping("inventory")), {};
    }
    var groupFiles := ParseFiles(input.groupVars);
    if groupFiles.Err? {
      return Err(groupFiles.error), {};
    }
    var hostFiles := ParseFiles(input.hostVars);
    if hostFiles.Err? {
      return Err(hostFiles.error), {};
    }
    var walked := Collect(input.inventory.value);
    if walked.Err? {
      return Err(walked.error), {};
    }
    var d;
    d, strays := Assemble(walked.value, AllDecls(input.inventory.value), groupFiles.value, hostFiles.value);
    r := Ok(d);
  }

  lemma TablesShow(c: Collected, decls: seq<Decl>)
    requires Holds(c, decls)
    ensures forall n :: (n in c.groups <==> WithAll(None, decls, n).Some?)
                        && (n in c.groups ==> c.groups[n] == WithAll(None, decls, n).value)
    ensures forall h :: (h in c.memberships <==> HostWithAll(None, decls, h).Some?)
                        && (h in c.memberships ==> LookHost(c, h) == HostWithAll(None, decls, h))
  {
    forall n
      ensures Look(c, n) == WithAll(None, decls, n) && LookHost(c, n) == HostWithAll(None, decls, n)
    {
    }
  }
}
