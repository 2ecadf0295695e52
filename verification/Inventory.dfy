/** Ansible inventory JSON, printed and read
    (src/application/output.rs:309-352, src/domain/dataset.rs:79-160, 182-242). */
module Inventory {
  import opened Text
  import opened Json
  import opened Datasets

  // ----- printing -----

  function Strings(names: seq<string>): seq<Json> {
    seq(|names|, i requires 0 <= i < |names| => Str(names[i]))
  }

  /** A group's entry: what is empty is left out, lists are sorted. */
  function GroupJson(group: Group): Json {
    var named: map<string, Json> := if group.hosts == [] then map[] else map["hosts" := Arr(Strings(Sort(group.hosts)))];
    var parented := if group.children == [] then named else named["children" := Arr(Strings(Sort(group.children)))];
    Obj(if NoVars(group.vars) then parented else parented["vars" := Obj(group.vars.value)])
  }

  function MetaJson(hostvars: map<string, HostVars>): Json {
    Obj(map["hostvars" := Obj(map h | h in hostvars :: Obj(hostvars[h]))])
  }

  /** The inventory printed for these hosts and groups: an entry for `_meta`, then one
      for each group, which replaces an earlier entry of the same name. */
  ghost predicate IsRendered(hostvars: map<string, HostVars>, groups: map<string, Group>, inventory: Json) {
    && inventory.Obj?
    && (forall n :: n in inventory.fields <==> n == "_meta" || n in groups)
    && (forall n | n in groups :: inventory.fields[n] == GroupJson(groups[n]))
    && ("_meta" !in groups ==> inventory.fields["_meta"] == MetaJson(hostvars))
  }

  method RenderGroup(group: Group) returns (entry: Json)
    ensures entry == GroupJson(group)
  {
    hide Sort, Strings;
    var fields: map<string, Json> := map[];
    if group.hosts != [] {
      fields := fields["hosts" := Arr(Strings(Sort(group.hosts)))];
    }
    if group.children != [] {
      fields := fields["children" := Arr(Strings(Sort(group.children)))];
    }
    if !NoVars(group.vars) {
      fields := fields["vars" := Obj(group.vars.value)];
    }
    entry := Obj(fields);
  }

  /** The entries of all groups on top of what is there. */
  method RenderGroups(start: map<string, Json>, groups: map<string, Group>) returns (fields: map<string, Json>)
    ensures forall n :: n in fields <==> n in start || n in groups
    ensures forall n | n in fields :: fields[n] == if n in groups then GroupJson(groups[n]) else start[n]
  {
    hide GroupJson, Ascending, Overlaid;
    fields := start;
    var names := List(groups.Keys);
    NothingOverlaid(start, groups);
    for i := 0 to |names|
      invariant Overlaid(start, groups, names[..i], fields)
    {
      assert names[..i + 1] == names[..i] + [names[i]];
      var entry := RenderGroup(groups[names[i]]);
      OneMoreOverlaid(start, groups, names[..i], fields, names[i]);
      fields := fields[names[i] := entry];
    }
    assert names[..|names|] == names;
    AllOverlaid(start, groups, names, fields);
  }

  /** The entries of these groups on top of what is there. */
  ghost predicate Overlaid(start: map<string, Json>, groups: map<string, Group>, names: seq<string>, fields: map<string, Json>) {
    && (forall n :: n in fields <==> n in start || n in names)
    && (forall n | n in names :: n in groups && fields[n] == GroupJson(groups[n]))
    && (forall n | n in start && n !in names :: fields[n] == start[n])
  }

  lemma NothingOverlaid(start: map<string, Json>, groups: map<string, Group>)
    ensures Overlaid(start, groups, [], start)
  {
  }

  lemma OneMoreOverlaid(start: map<string, Json>, groups: map<string, Group>, names: seq<string>, fields: map<string, Json>, name: string)
    requires Overlaid(start, groups, names, fields) && name in groups
    ensures Overlaid(start, groups, names + [name], fields[name := GroupJson(groups[name])])
  {
    hide GroupJson;
  }

  lemma AllOverlaid(start: map<string, Json>, groups: map<string, Group>, names: seq<string>, fields: map<string, Json>)
    requires Overlaid(start, groups, names, fields)
    requires forall n :: n in names <==> n in groups
    ensures forall n :: n in fields <==> n in start || n in groups
    ensures forall n | n in fields :: fields[n] == if n in groups then GroupJson(groups[n]) else start[n]
  {
    hide GroupJson;
  }

  method Render(hostvars: map<string, HostVars>, groups: map<string, Group>) returns (inventory: Json)
    ensures IsRendered(hostvars, groups, inventory)
  {
    hide GroupJson, MetaJson;
    var fields := RenderGroups(map["_meta" := MetaJson(hostvars)], groups);
    inventory := Obj(fields);
  }

  // ----- reading -----

  datatype Warning =
    | NoHostVars
    | IgnoredKeys(group: string)
    | DroppedVars(group: string)

  datatype Fault =
    | NotAnObject
    | OldFormat
    | BadHostVars
    | BadGroup(group: string)

  predicate AreStrings(items: seq<Json>) {
    forall i | 0 <= i < |items| :: items[i].Str?
  }

  function Texts(items: seq<Json>): seq<string>
    requires AreStrings(items)
  {
    seq(|items|, i requires 0 <= i < |items| => items[i].text)
  }

  const GROUP_KEYS := {"hosts", "children", "vars"}

  /** A list of names, where there may be one. */
  predicate NamesOk(fields: map<string, Json>, key: string) {
    key in fields ==> fields[key].Arr? && AreStrings(fields[key].items)
  }

  function NamesIn(fields: map<string, Json>, key: string): seq<string>
    requires NamesOk(fields, key)
  {
    if key in fields then Texts(fields[key].items) else []
  }

  predicate VarsOk(fields: map<string, Json>) {
    "vars" in fields ==> fields["vars"].Null? || fields["vars"].Obj?
  }

  /** A group reads: a list of names, or an object with a known key, or none at all. */
  predicate GroupOk(value: Json) {
    match value
    case Arr(items) => AreStrings(items)
    case Obj(fields) =>
      && (fields == map[] || exists k | k in GROUP_KEYS :: k in fields)
      && NamesOk(fields, "hosts") && NamesOk(fields, "children") && VarsOk(fields)
    case _ => false
  }

  function GroupIn(value: Json): Group
    requires GroupOk(value)
  {
    match value
    case Arr(items) => Group(Texts(items), [], None)
    case Obj(fields) =>
      Group(NamesIn(fields, "hosts"), NamesIn(fields, "children"),
            if "vars" in fields && fields["vars"].Obj? then Some(fields["vars"].fields) else None)
  }

  /** The raw dataset shape under this key: a map of objects that is no group. */
  predicate OldShape(fields: map<string, Json>, key: string) {
    && key in fields && fields[key].Obj?
    && (forall k | k in fields[key].fields :: fields[key].fields[k].Obj?)
    && (forall k | k in GROUP_KEYS :: k !in fields[key].fields)
  }

  /** Where host variables stand, if they do. */
  function RawHostVars(fields: map<string, Json>): Option<Json> {
    if "_meta" in fields && fields["_meta"].Obj? && "hostvars" in fields["_meta"].fields
    then Some(fields["_meta"].fields["hostvars"])
    else None
  }

  predicate HostVarsOk(raw: Option<Json>) {
    raw.Some? ==> raw.value.Obj? && forall h | h in raw.value.fields :: raw.value.fields[h].Obj?
  }

  function HostVarsIn(raw: Option<Json>): map<string, HostVars>
    requires HostVarsOk(raw)
  {
    if raw.None? then map[] else map h | h in raw.value.fields :: raw.value.fields[h].fields
  }

  predicate Readable(value: Json) {
    && value.Obj?
    && ("_meta" in value.fields || (!OldShape(value.fields, "hostvars") && !OldShape(value.fields, "groups")))
    && HostVarsOk(RawHostVars(value.fields))
    && forall n | n in value.fields && n != "_meta" :: GroupOk(value.fields[n])
  }

  function GroupWarnings(name: string, value: Json): seq<Warning>
    requires GroupOk(value)
  {
    (if value.Obj? && exists k | k in value.fields :: k !in GROUP_KEYS then [IgnoredKeys(name)] else [])
    + (if IsMetaGroup(name) && GroupIn(value).vars.Some? && GroupIn(value).vars.value != map[] then [DroppedVars(name)] else [])
  }

  function Warnings(fields: map<string, Json>, names: seq<string>): seq<Warning>
    requires forall n | n in names :: n in fields && (n != "_meta" ==> GroupOk(fields[n]))
  {
    if names == [] then if "_meta" in fields then [] else [NoHostVars]
    else
      var n := names[|names| - 1];
      Warnings(fields, names[..|names| - 1]) + if n == "_meta" then [] else GroupWarnings(n, fields[n])
  }

  /** Listed in `all` or `ungrouped`. */
  predicate InMetaGroup(fields: map<string, Json>, host: string)
    requires forall n | n in fields && n != "_meta" :: GroupOk(fields[n])
  {
    exists n | n in fields :: IsMetaGroup(n) && host in GroupIn(fields[n]).hosts
  }

  /** What a readable inventory says. */
  ghost predicate IsRead(value: Json, d: Dataset, warnings: seq<Warning>)
    requires Readable(value)
  {
    var given := HostVarsIn(RawHostVars(value.fields));
    && d.removeHosts == []
    && (forall h :: h in d.hostvars <==> h in given || InMetaGroup(value.fields, h))
    && (forall h | h in d.hostvars :: d.hostvars[h] == if h in given then given[h] else map[])
    && d.groups.Keys == (set n | n in value.fields && n != "_meta" && !IsMetaGroup(n))
    && (forall n | n in d.groups :: d.groups[n] == GroupIn(value.fields[n]))
    && warnings == Warnings(value.fields, Listing(value.fields.Keys))
  }

  method AddBareHosts(was: map<string, HostVars>, hosts: seq<string>) returns (hostvars: map<string, HostVars>)
    ensures BareHostsAdded(was, hosts, hostvars)
  {
    hostvars := was;
    for i := 0 to |hosts|
      invariant forall h :: h in hostvars <==> h in was || h in hosts[..i]
      invariant forall h | h in hostvars :: hostvars[h] == if h in was then was[h] else map[]
    {
      assert hosts[..i + 1] == hosts[..i] + [hosts[i]];
      if hosts[i] !in hostvars {
        hostvars := hostvars[hosts[i] := map[]];
      }
    }
    assert hosts[..|hosts|] == hosts;
  }

  predicate EntriesOk(fields: map<string, Json>, names: seq<string>) {
    forall n | n in names :: n in fields && (n != "_meta" ==> GroupOk(fields[n]))
  }

  /** An entry for a group that is kept as a group. */
  predicate Ordinary(name: string) {
    name != "_meta" && !IsMetaGroup(name)
  }

  /** What is known after the entries of these names: the hosts given, and those
      listed in a meta-group among them; the ordinary groups; the warnings. */
  ghost predicate HostsSoFar(fields: map<string, Json>, names: seq<string>, given: map<string, HostVars>, hostvars: map<string, HostVars>)
    requires EntriesOk(fields, names)
  {
    && (forall h :: h in hostvars <==> h in given || exists n | n in names :: ListsBare(fields, n, h))
    && (forall h | h in hostvars :: hostvars[h] == if h in given then given[h] else map[])
  }

  predicate ListsBare(fields: map<string, Json>, name: string, host: string)
    requires name in fields && (name != "_meta" ==> GroupOk(fields[name]))
  {
    IsMetaGroup(name) && host in GroupIn(fields[name]).hosts
  }

  ghost predicate GroupsSoFar(fields: map<string, Json>, names: seq<string>, groups: map<string, Group>)
    requires EntriesOk(fields, names)
  {
    && (forall n :: n in groups <==> n in names && Ordinary(n))
    && (forall n | n in groups :: groups[n] == GroupIn(fields[n]))
  }

  ghost predicate SoFar(fields: map<string, Json>, names: seq<string>, given: map<string, HostVars>,
                        hostvars: map<string, HostVars>, groups: map<string, Group>, warnings: seq<Warning>)
    requires EntriesOk(fields, names)
  {
    && HostsSoFar(fields, names, given, hostvars)
    && GroupsSoFar(fields, names, groups)
    && warnings == Warnings(fields, names)
  }

  ghost predicate BareHostsAdded(was: map<string, HostVars>, hosts: seq<string>, now: map<string, HostVars>) {
    && (forall h :: h in now <==> h in was || h in hosts)
    && (forall h | h in now :: now[h] == if h in was then was[h] else map[])
  }

  lemma MoreHosts(fields: map<string, Json>, names: seq<string>, name: string, given: map<string, HostVars>,
                  hostvars: map<string, HostVars>, more: map<string, HostVars>)
    requires EntriesOk(fields, names + [name]) && EntriesOk(fields, names)
    requires HostsSoFar(fields, names, given, hostvars)
    requires if IsMetaGroup(name) then BareHostsAdded(hostvars, GroupIn(fields[name]).hosts, more) else more == hostvars
    ensures HostsSoFar(fields, names + [name], given, more)
  {
    hide GroupIn, GroupOk;
    assert name in names + [name];
    forall h
      ensures h in more <==> h in given || exists n | n in names + [name] :: ListsBare(fields, n, h)
    {
      assert ListsBare(fields, name, h) <==> IsMetaGroup(name) && h in GroupIn(fields[name]).hosts;
    }
  }

  lemma MoreGroups(fields: map<string, Json>, names: seq<string>, name: string, groups: map<string, Group>)
    requires EntriesOk(fields, names + [name]) && EntriesOk(fields, names)
    requires GroupsSoFar(fields, names, groups)
    requires Ordinary(name) ==> GroupOk(fields[name])
    ensures GroupsSoFar(fields, names + [name], if Ordinary(name) then groups[name := GroupIn(fields[name])] else groups)
  {
    hide GroupIn, GroupOk;
    assert name in names + [name];
  }

  lemma OneMoreEntry(fields: map<string, Json>, names: seq<string>, name: string, given: map<string, HostVars>,
                     hostvars: map<string, HostVars>, groups: map<string, Group>, warnings: seq<Warning>,
                     moreHosts: map<string, HostVars>)
    requires name in fields && (name != "_meta" ==> GroupOk(fields[name])) && EntriesOk(fields, names)
    requires SoFar(fields, names, given, hostvars, groups, warnings)
    requires if IsMetaGroup(name) then BareHostsAdded(hostvars, GroupIn(fields[name]).hosts, moreHosts) else moreHosts == hostvars
    ensures EntriesOk(fields, names + [name])
    ensures SoFar(fields, names + [name], given, moreHosts,
                  if Ordinary(name) then groups[name := GroupIn(fields[name])] else groups,
                  if name == "_meta" then warnings else warnings + GroupWarnings(name, fields[name]))
  {
    hide GroupIn, GroupOk, GroupWarnings, HostsSoFar, GroupsSoFar, IsMetaGroup;
    var longer := names + [name];
    assert longer[..|names|] == names;
    MoreHosts(fields, names, name, given, hostvars, moreHosts);
    MoreGroups(fields, names, name, groups);
  }

  /** The entries, one after the other. */
  method ReadEntries(fields: map<string, Json>, given: map<string, HostVars>)
    returns (r: Result<Dataset, Fault>, warnings: seq<Warning>)
    ensures r.Ok? <==> EntriesOk(fields, Listing(fields.Keys))
    ensures r.Ok? ==> r.value.removeHosts == []
                      && SoFar(fields, Listing(fields.Keys), given, r.value.hostvars, r.value.groups, warnings)
  {
    hide GroupIn, GroupOk, GroupWarnings, SoFar, BareHostsAdded, Ascending;
    warnings := if "_meta" in fields then [] else [NoHostVars];
    var hostvars := given;
    var groups: map<string, Group> := map[];
    var names := List(fields.Keys);
    NothingRead(fields, given);
    for i := 0 to |names|
      invariant EntriesOk(fields, names[..i])
      invariant SoFar(fields, names[..i], given, hostvars, groups, warnings)
    {
      var name := names[i];
      assert names[..i + 1] == names[..i] + [name];
      ghost var was, before, earlier := hostvars, groups, warnings;
      if name != "_meta" {
        if !GroupOk(fields[name]) {
          return Err(BadGroup(name)), [];
        }
        var group := GroupIn(fields[name]);
        warnings := warnings + GroupWarnings(name, fields[name]);
        if IsMetaGroup(name) {
          hostvars := AddBareHosts(hostvars, group.hosts);
        } else {
          groups := groups[name := group];
        }
      }
      OneMoreEntry(fields, names[..i], name, given, was, before, earlier, hostvars);
    }
    assert names[..|names|] == names;
    r := Ok(Dataset(hostvars, groups, []));
  }

  lemma NothingRead(fields: map<string, Json>, given: map<string, HostVars>)
    ensures EntriesOk(fields, [])
    ensures SoFar(fields, [], given, given, map[], if "_meta" in fields then [] else [NoHostVars])
  {
  }

  method Parse(value: Json) returns (r: Result<Dataset, Fault>, warnings: seq<Warning>)
    ensures r.Ok? <==> Readable(value)
    ensures r.Ok? ==> IsRead(value, r.value, warnings)
  {
    hide OldShape, GroupIn, GroupOk, SoFar, HostVarsIn, HostVarsOk, Warnings;
    warnings := [];
    if !value.Obj? {
      return Err(NotAnObject), [];
    }
    var fields := value.fields;
    if "_meta" !in fields && (OldShape(fields, "hostvars") || OldShape(fields, "groups")) {
      return Err(OldFormat), [];
    }
    var raw := RawHostVars(fields);
    if !HostVarsOk(raw) {
      return Err(BadHostVars), [];
    }
    r, warnings := ReadEntries(fields, HostVarsIn(raw));
    if r.Ok? {
      AllRead(value, r.value, warnings);
    }
  }

  lemma AllRead(value: Json, d: Dataset, warnings: seq<Warning>)
    requires Readable(value) && d.removeHosts == []
    requires SoFar(value.fields, Listing(value.fields.Keys), HostVarsIn(RawHostVars(value.fields)), d.hostvars, d.groups, warnings)
    ensures IsRead(value, d, warnings)
  {
    hide GroupIn, GroupOk, HostVarsIn, HostVarsOk, Warnings, OldShape;
    var names := Listing(value.fields.Keys);
    forall h
      ensures InMetaGroup(value.fields, h) <==> exists n | n in names :: ListsBare(value.fields, n, h)
    {
      if InMetaGroup(value.fields, h) {
        var n :| n in value.fields && IsMetaGroup(n) && h in GroupIn(value.fields[n]).hosts;
        assert n in names && ListsBare(value.fields, n, h);
      }
    }
  }

  // ----- round trip -----

  /** Lists sorted, empty variables as none. */
  function NormalGroup(group: Group): Group {
    Group(Sort(group.hosts), Sort(group.children), if group.vars == Some(map[]) then None else group.vars)
  }

  function Normal(groups: map<string, Group>): map<string, Group> {
    map n | n in groups :: NormalGroup(groups[n])
  }

  lemma StringsTexts(names: seq<string>)
    ensures AreStrings(Strings(names)) && Texts(Strings(names)) == names
  {
  }

  lemma OnlyGroupKeys(group: Group)
    ensures forall k | k in GroupJson(group).fields :: k in GROUP_KEYS
  {
    hide Sort, Strings;
  }

  lemma GroupRoundTrip(group: Group)
    ensures GroupOk(GroupJson(group)) && GroupIn(GroupJson(group)) == NormalGroup(group)
    ensures forall k | k in GroupJson(group).fields :: k in GROUP_KEYS
  {
    hide Sort, Strings, Texts, AreStrings;
    StringsTexts(Sort(group.hosts));
    StringsTexts(Sort(group.children));
    OnlyGroupKeys(group);
    var fields := GroupJson(group).fields;
    if fields != map[] {
      var k :| k in fields;
      assert k in GROUP_KEYS;
    }
    assert Sort([]) == [];
  }

  lemma MetaRoundTrip(hostvars: map<string, HostVars>)
    ensures MetaJson(hostvars).Obj? && "hostvars" in MetaJson(hostvars).fields
    ensures var raw := Some(MetaJson(hostvars).fields["hostvars"]); HostVarsOk(raw) && HostVarsIn(raw) == hostvars
  {
  }

  predicate PlainNames(groups: map<string, Group>) {
    "_meta" !in groups && forall n | n in groups :: !IsMetaGroup(n)
  }

  lemma {:induction false} NoWarnings(groups: map<string, Group>, fields: map<string, Json>, names: seq<string>)
    requires "_meta" in fields && PlainNames(groups)
    requires forall n | n in names :: n in fields && (n != "_meta" ==> n in groups && fields[n] == GroupJson(groups[n]))
    requires forall n | n in names :: n != "_meta" ==> GroupOk(fields[n])
    ensures Warnings(fields, names) == []
  {
    if names != [] {
      var n := names[|names| - 1];
      NoWarnings(groups, fields, names[..|names| - 1]);
      if n != "_meta" {
        GroupRoundTrip(groups[n]);
      }
    }
  }

  /** Printed and read again: the same hosts with the same variables, and the groups
      in normal form, without a warning, exactly when no group has one of the three
      names that mean something else there. */
  lemma {:induction false} PrintThenRead(hostvars: map<string, HostVars>, groups: map<string, Group>, inventory: Json)
    requires IsRendered(hostvars, groups, inventory)
    ensures "_meta" !in groups && "all" !in groups && "ungrouped" !in groups <==>
            Readable(inventory) && IsRead(inventory, Dataset(hostvars, Normal(groups), []), [])
  {
    if PlainNames(groups) {
      RenderedIsReadable(hostvars, groups, inventory);
    }
    if Readable(inventory) && IsRead(inventory, Dataset(hostvars, Normal(groups), []), []) {
      forall n | n in groups
        ensures n != "_meta" && !IsMetaGroup(n)
      {
        assert n in Normal(groups);
      }
    }
  }

  lemma RenderedIsReadable(hostvars: map<string, HostVars>, groups: map<string, Group>, inventory: Json)
    requires IsRendered(hostvars, groups, inventory) && PlainNames(groups)
    ensures Readable(inventory) && IsRead(inventory, Dataset(hostvars, Normal(groups), []), [])
  {
    hide GroupJson, MetaJson, GroupIn, NormalGroup, GroupOk, HostVarsIn, HostVarsOk, Warnings, OldShape;
    var fields := inventory.fields;
    MetaRoundTrip(hostvars);
    assert RawHostVars(fields) == Some(MetaJson(hostvars).fields["hostvars"]);
    forall n | n in fields && n != "_meta"
      ensures n in groups && GroupOk(fields[n]) && GroupIn(fields[n]) == NormalGroup(groups[n])
    {
      GroupRoundTrip(groups[n]);
    }
    NoWarnings(groups, fields, Listing(fields.Keys));
    forall h
      ensures !InMetaGroup(fields, h)
    {
    }
    assert Normal(groups).Keys == set n | n in fields && n != "_meta" && !IsMetaGroup(n);
  }

  /** Two readings of one inventory are the same. */
  lemma ReadOnce(inventory: Json, a: Dataset, b: Dataset, warnings: seq<Warning>, others: seq<Warning>)
    requires Readable(inventory) && IsRead(inventory, a, warnings) && IsRead(inventory, b, others)
    ensures a == b && warnings == others
  {
    assert a.hostvars == b.hostvars;
    assert a.groups == b.groups;
  }

  lemma NormalJson(group: Group)
    ensures GroupJson(NormalGroup(group)) == GroupJson(group)
  {
    SortOrdered(Sort(group.hosts));
    SortOrdered(Sort(group.children));
  }

  /** Printing what was read gives the same inventory. */
  lemma {:induction false} PrintReadPrint(hostvars: map<string, HostVars>, groups: map<string, Group>, inventory: Json,
                       d: Dataset, warnings: seq<Warning>, again: Json)
    requires PlainNames(groups) && IsRendered(hostvars, groups, inventory)
    requires Readable(inventory) && IsRead(inventory, d, warnings)
    requires IsRendered(d.hostvars, d.groups, again)
    ensures warnings == [] && d == Dataset(hostvars, Normal(groups), [])
    ensures again == inventory
  {
    hide GroupJson, MetaJson, IsRead, Readable, NormalGroup;
    PrintThenRead(hostvars, groups, inventory);
    ReadOnce(inventory, d, Dataset(hostvars, Normal(groups), []), warnings, []);
    forall n | n in groups
      ensures again.fields[n] == inventory.fields[n]
    {
      NormalJson(groups[n]);
    }
    assert again.fields == inventory.fields;
  }

  /** The short form: a list of names is a group with those hosts. */
  lemma ShortFormReads(names: seq<string>)
    ensures GroupOk(Arr(Strings(names))) && GroupIn(Arr(Strings(names))) == Group(names, [], None)
  {
    StringsTexts(names);
  }

  /** What a group's object reads as. */
  lemma {:induction false} ObjectFormReads(fields: map<string, Json>)
    requires GroupOk(Obj(fields))
    ensures var group := GroupIn(Obj(fields));
            && (if "hosts" in fields then fields["hosts"] == Arr(Strings(group.hosts)) else group.hosts == [])
            && (if "children" in fields then fields["children"] == Arr(Strings(group.children)) else group.children == [])
            && (if "vars" in fields && fields["vars"] != Null then group.vars == Some(fields["vars"].fields) else group.vars == None)
  {
    if "hosts" in fields {
      TextsStrings(fields["hosts"].items);
    }
    if "children" in fields {
      TextsStrings(fields["children"].items);
    }
  }

  /** A group is printed with its hosts, children and variables, each only if there are
      any, and with nothing else. */
  lemma {:induction false} PrintedKeys(group: Group, key: string)
    ensures GroupJson(group).Obj?
    ensures key in GroupJson(group).fields <==>
            || (key == "hosts" && group.hosts != [])
            || (key == "children" && group.children != [])
            || (key == "vars" && group.vars.Some? && group.vars.value != map[])
  {
    hide Strings, Sort;
  }

  /** The value lists names, and nothing else. */
  ghost predicate ListsNames(value: Json) {
    exists names :: value == Arr(Strings(names))
  }

  lemma {:induction false} NamesAreListed(value: Json)
    ensures ListsNames(value) <==> value.Arr? && AreStrings(value.items)
  {
    if value.Arr? && AreStrings(value.items) {
      TextsStrings(value.items);
      assert value == Arr(Strings(Texts(value.items)));
    }
  }

  /** A group reads exactly when it is a list of names, or an object that is empty or has
      a known key, whose lists list names and whose variables are an object or null. */
  lemma {:induction false} GroupReadsIff(value: Json)
    ensures GroupOk(value) <==>
            || ListsNames(value)
            || (&& value.Obj?
                && (value.fields == map[] || "hosts" in value.fields || "children" in value.fields || "vars" in value.fields)
                && ("hosts" in value.fields ==> ListsNames(value.fields["hosts"]))
                && ("children" in value.fields ==> ListsNames(value.fields["children"]))
                && ("vars" in value.fields ==> value.fields["vars"] == Null || exists vars :: value.fields["vars"] == Obj(vars)))
  {
    hide ListsNames;
    NamesAreListed(value);
    if value.Obj? {
      if "hosts" in value.fields {
        NamesAreListed(value.fields["hosts"]);
      }
      if "children" in value.fields {
        NamesAreListed(value.fields["children"]);
      }
      assert (exists k | k in GROUP_KEYS :: k in value.fields) <==>
             "hosts" in value.fields || "children" in value.fields || "vars" in value.fields;
      if "vars" in value.fields && value.fields["vars"].Obj? {
        assert value.fields["vars"] == Obj(value.fields["vars"].fields);
      }
    }
  }

  /** Host variables, if an object `_meta` has any, read exactly when they are printed
      from some, and then as those; with no such `_meta` no host has any. */
  lemma {:induction false} HostVarsReadIff(fields: map<string, Json>, given: map<string, HostVars>)
    ensures var raw := RawHostVars(fields);
            if "_meta" in fields && fields["_meta"].Obj? && "hostvars" in fields["_meta"].fields then
              var printed := Obj(map h | h in given :: Obj(given[h]));
              HostVarsOk(raw) && HostVarsIn(raw) == given <==> fields["_meta"].fields["hostvars"] == printed
            else HostVarsOk(raw) && HostVarsIn(raw) == map[]
  {
    var raw := RawHostVars(fields);
    if raw.Some? && HostVarsOk(raw) && HostVarsIn(raw) == given {
      var hostvars := raw.value.fields;
      assert forall h | h in hostvars :: hostvars[h] == Obj(given[h]);
      assert hostvars == map h | h in given :: Obj(given[h]);
    }
    if raw.Some? && raw.value == Obj(map h | h in given :: Obj(given[h])) {
      assert HostVarsIn(raw) == given;
    }
  }

  lemma {:induction false} TextsStrings(items: seq<Json>)
    requires AreStrings(items)
    ensures Strings(Texts(items)) == items
  {
    assert forall i | 0 <= i < |items| :: Strings(Texts(items))[i] == items[i];
  }

  /** Without `_meta`, the program's own dataset shape is refused: a map of objects that
      is no group under one of its two names. A group of that name still reads. */
  lemma OwnShapeIsRefused(fields: map<string, Json>, key: string)
    requires "_meta" !in fields && key in fields && (key == "hostvars" || key == "groups")
    requires fields[key].Obj? && forall k | k in fields[key].fields :: fields[key].fields[k].Obj?
    ensures (forall k | k in fields[key].fields :: k != "hosts" && k != "children" && k != "vars") ==> !Readable(Obj(fields))
    ensures (exists k | k in fields[key].fields :: k == "hosts" || k == "children" || k == "vars") ==> !OldShape(fields, key)
  {
  }

  /** Nothing is said exactly when there is `_meta`, no group has a key that is not read,
      and no implicit group has variables. */
  lemma {:induction false} SilentIff(fields: map<string, Json>, names: seq<string>)
    requires EntriesOk(fields, names)
    ensures Warnings(fields, names) == [] <==>
            && "_meta" in fields
            && forall n | n in names && n != "_meta" ::
                 && (fields[n].Obj? ==> forall k | k in fields[n].fields :: k == "hosts" || k == "children" || k == "vars")
                 && (IsMetaGroup(n) ==> GroupIn(fields[n]).vars == None || GroupIn(fields[n]).vars == Some(map[]))
  {
    hide GroupIn, GroupOk;
    if names != [] {
      var k := |names| - 1;
      SilentIff(fields, names[..k]);
      assert names == names[..k] + [names[k]];
    }
  }
}
