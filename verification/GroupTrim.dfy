/** `groups=matching`: the groups a page of hosts belongs to, and their ancestors
    (src/domain/group_trim.rs:3-83). */
module GroupTrim {
  import opened Text

  /** One declared group. */
  datatype Declared = Declared(name: string, hosts: seq<string>, children: seq<string>)

  datatype Trimmed = Trimmed(hosts: seq<string>, children: seq<string>)

  // ----- what is wanted -----

  /** A declared group of that name has a host on the page. */
  predicate OnPage(all: seq<Declared>, page: set<string>, name: string) {
    exists i | 0 <= i < |all| :: all[i].name == name && Within(all[i].hosts, page) != []
  }

  predicate Edge(all: seq<Declared>, parent: string, child: string) {
    exists i | 0 <= i < |all| :: all[i].name == parent && child in all[i].children
  }

  /** A walk down the declared groups. */
  predicate Chain(all: seq<Declared>, path: seq<string>) {
    path != [] && forall k | 0 <= k < |path| - 1 :: Edge(all, path[k], path[k + 1])
  }

  /** A group with a host on the page is reachable by zero or more child edges. */
  ghost predicate Leads(all: seq<Declared>, page: set<string>, name: string) {
    exists path :: Chain(all, path) && path[0] == name && OnPage(all, page, path[|path| - 1])
  }

  predicate DistinctNames(all: seq<Declared>) {
    forall i, j | 0 <= i < j < |all| :: all[i].name != all[j].name
  }

  function Names(all: seq<Declared>): set<string> {
    set d | d in all :: d.name
  }

  // ----- lemmas -----

  lemma {:induction false} SeedLeads(all: seq<Declared>, page: set<string>, name: string)
    requires OnPage(all, page, name)
    ensures Leads(all, page, name)
  {
    assert Chain(all, [name]);
  }

  lemma {:induction false} ParentLeads(all: seq<Declared>, page: set<string>, parent: string, child: string)
    requires Edge(all, parent, child) && Leads(all, page, child)
    ensures Leads(all, page, parent)
  {
    hide Edge, OnPage;
    var path :| Chain(all, path) && path[0] == child && OnPage(all, page, path[|path| - 1]);
    var longer := [parent] + path;
    forall k | 0 <= k < |longer| - 1
      ensures Edge(all, longer[k], longer[k + 1])
    {
      if k > 0 {
        assert Edge(all, path[k - 1], path[k - 1 + 1]);
      }
    }
    assert longer[|longer| - 1] == path[|path| - 1];
    assert Chain(all, longer);
  }

  /** A set with the seeds in it that no parent is left out of holds every group
      that leads to the page. */
  lemma {:induction false} ClosedHoldsLeading(all: seq<Declared>, page: set<string>, kept: set<string>, path: seq<string>)
    requires forall n | OnPage(all, page, n) :: n in kept
    requires Closed(all, kept)
    requires Chain(all, path) && OnPage(all, page, path[|path| - 1])
    ensures path[0] in kept
  {
    if |path| > 1 {
      assert Edge(all, path[0], path[0 + 1]);
      forall k | 0 <= k < |path[1..]| - 1
        ensures Edge(all, path[1..][k], path[1..][k + 1])
      {
        assert Edge(all, path[k + 1], path[k + 1 + 1]);
      }
      ClosedHoldsLeading(all, page, kept, path[1..]);
    }
  }

  lemma {:induction false} FewNames(all: seq<Declared>)
    ensures |Names(all)| <= |all|
  {
    if all != [] {
      var n := |all| - 1;
      FewNames(all[..n]);
      assert all == all[..n] + [all[n]];
      assert Names(all) == Names(all[..n]) + {all[n].name};
    }
  }

  // ----- the algorithm -----

  method Seeds(all: seq<Declared>, page: set<string>) returns (kept: map<string, Trimmed>)
    ensures forall n :: n in kept <==> OnPage(all, page, n)
    ensures DistinctNames(all) ==> forall i | 0 <= i < |all| && all[i].name in kept ::
              kept[all[i].name] == Trimmed(Within(all[i].hosts, page), [])
  {
    kept := map[];
    for i := 0 to |all|
      invariant forall n :: n in kept <==> OnPage(all[..i], page, n)
      invariant DistinctNames(all) ==> forall j | 0 <= j < i && all[j].name in kept ::
                  kept[all[j].name] == Trimmed(Within(all[j].hosts, page), [])
    {
      var onPage := Within(all[i].hosts, page);
      if onPage != [] {
        kept := kept[all[i].name := Trimmed(onPage, [])];
      }
      OnPageGrows(all, page, i);
    }
    assert all[..|all|] == all;
  }

  lemma {:induction false} OnPageGrows(all: seq<Declared>, page: set<string>, i: nat)
    requires i < |all|
    ensures forall n :: OnPage(all[..i + 1], page, n) <==>
              OnPage(all[..i], page, n) || (n == all[i].name && Within(all[i].hosts, page) != [])
  {
    var longer, shorter := all[..i + 1], all[..i];
    forall n
      ensures OnPage(longer, page, n) <==> OnPage(shorter, page, n) || (n == all[i].name && Within(all[i].hosts, page) != [])
    {
      if OnPage(shorter, page, n) {
        var j :| 0 <= j < i && shorter[j].name == n && Within(shorter[j].hosts, page) != [];
        assert longer[j] == shorter[j];
      }
      if n == all[i].name && Within(all[i].hosts, page) != [] {
        assert longer[i] == all[i];
      }
      if OnPage(longer, page, n) {
        var j :| 0 <= j < i + 1 && longer[j].name == n && Within(longer[j].hosts, page) != [];
        if j < i {
          assert shorter[j] == longer[j];
        }
      }
    }
  }

  lemma {:induction false} DeclaredParentLeads(all: seq<Declared>, page: set<string>, i: nat, child: string)
    requires i < |all| && child in all[i].children && Leads(all, page, child)
    ensures Leads(all, page, all[i].name) && all[i].name in Names(all)
  {
    assert Edge(all, all[i].name, child);
    ParentLeads(all, page, all[i].name, child);
    assert all[i] in all;
  }

  /** No parent is left out. */
  predicate Closed(all: seq<Declared>, kept: set<string>) {
    forall j | 0 <= j < |all| && all[j].name !in kept :: forall c | c in all[j].children :: c !in kept
  }

  /** Kept groups are declared and lead to the page. */
  ghost predicate AllLead(all: seq<Declared>, page: set<string>, kept: set<string>) {
    kept <= Names(all) && forall n | n in kept :: Leads(all, page, n)
  }

  /** One pass: every group not kept yet with a kept child is kept. */
  method Pass(all: seq<Declared>, page: set<string>, before: map<string, Trimmed>)
    returns (kept: map<string, Trimmed>, grew: bool)
    requires AllLead(all, page, before.Keys)
    ensures AllLead(all, page, kept.Keys)
    ensures before.Keys <= kept.Keys
    ensures forall n | n in kept :: kept[n] == if n in before then before[n] else Trimmed([], [])
    ensures grew ==> before.Keys < kept.Keys
    ensures !grew ==> kept == before && Closed(all, kept.Keys)
  {
    hide Leads, Names;
    kept, grew := before, false;
    for i := 0 to |all|
      invariant AllLead(all, page, kept.Keys)
      invariant before.Keys <= kept.Keys
      invariant forall n | n in kept :: kept[n] == if n in before then before[n] else Trimmed([], [])
      invariant grew ==> before.Keys < kept.Keys
      invariant !grew ==> kept == before
      invariant !grew ==> Closed(all[..i], kept.Keys)
    {
      var d := all[i];
      if d.name !in kept && exists c | c in d.children :: c in kept {
        ghost var c :| c in d.children && c in kept;
        DeclaredParentLeads(all, page, i, c);
        kept := kept[d.name := Trimmed([], [])];
        grew := true;
      }
    }
    assert all[..|all|] == all;
  }

  method TrimChildren(all: seq<Declared>, kept: map<string, Trimmed>) returns (r: map<string, Trimmed>)
    ensures r.Keys == kept.Keys
    ensures DistinctNames(all) ==> forall i | 0 <= i < |all| && all[i].name in kept ::
              r[all[i].name] == Trimmed(kept[all[i].name].hosts, Within(all[i].children, kept.Keys))
  {
    r := kept;
    for i := 0 to |all|
      invariant r.Keys == kept.Keys
      invariant forall n | n in kept :: r[n].hosts == kept[n].hosts
      invariant DistinctNames(all) ==> forall j | 0 <= j < i && all[j].name in kept ::
                  r[all[j].name] == Trimmed(kept[all[j].name].hosts, Within(all[j].children, kept.Keys))
    {
      var d := all[i];
      if d.name in r {
        r := r[d.name := r[d.name].(children := Within(d.children, kept.Keys))];
      }
    }
  }

  /** Passes until one adds nothing. */
  method Fixpoint(all: seq<Declared>, page: set<string>, seeds: map<string, Trimmed>)
    returns (kept: map<string, Trimmed>, ghost passes: nat)
    requires AllLead(all, page, seeds.Keys)
    ensures AllLead(all, page, kept.Keys) && seeds.Keys <= kept.Keys && Closed(all, kept.Keys)
    ensures forall n | n in kept :: kept[n] == if n in seeds then seeds[n] else Trimmed([], [])
    ensures passes <= |all|
  {
    hide Leads, Names;
    kept, passes := seeds, 0;
    FewNames(all);
    var grew := true;
    while grew
      invariant AllLead(all, page, kept.Keys) && seeds.Keys <= kept.Keys
      invariant forall n | n in kept :: kept[n] == if n in seeds then seeds[n] else Trimmed([], [])
      invariant passes + |Names(all) - kept.Keys| <= |all|
      invariant !grew ==> Closed(all, kept.Keys)
      decreases grew, |Names(all) - kept.Keys|
    {
      ghost var left := Names(all) - kept.Keys;
      kept, grew := Pass(all, page, kept);
      if grew {
        assert Names(all) - kept.Keys < left;
        SmallerSet(Names(all) - kept.Keys, left);
        passes := passes + 1;
      } else {
        assert Names(all) - kept.Keys == left;
      }
    }
  }

  lemma {:induction false} KeptExactlyLeading(all: seq<Declared>, page: set<string>, kept: set<string>, n: string)
    requires forall m | OnPage(all, page, m) :: m in kept
    requires Closed(all, kept)
    requires Leads(all, page, n)
    ensures n in kept
  {
    var path :| Chain(all, path) && path[0] == n && OnPage(all, page, path[|path| - 1]);
    ClosedHoldsLeading(all, page, kept, path);
  }

  lemma {:induction false} SeedsLead(all: seq<Declared>, page: set<string>, seeds: set<string>)
    requires forall n :: n in seeds <==> OnPage(all, page, n)
    ensures AllLead(all, page, seeds)
  {
    forall n | n in seeds
      ensures n in Names(all) && Leads(all, page, n)
    {
      SeedLeads(all, page, n);
      var i :| 0 <= i < |all| && all[i].name == n && Within(all[i].hosts, page) != [];
      assert all[i] in all;
    }
  }

  /** A group is kept exactly when a group with a host on the page is reachable
      from it by child edges, cycles or not. A kept group lists its hosts on the
      page and its kept children, in their original order. The search ends within
      as many growing passes as there are groups. */
  method Matching(all: seq<Declared>, page: set<string>) returns (kept: map<string, Trimmed>, ghost passes: nat)
    ensures forall n :: n in kept <==> Leads(all, page, n)
    ensures DistinctNames(all) ==> forall i | 0 <= i < |all| && all[i].name in kept ::
              kept[all[i].name] == Trimmed(Within(all[i].hosts, page), Within(all[i].children, kept.Keys))
    ensures passes <= |all|
  {
    hide Leads, Names;
    var seeds := Seeds(all, page);
    SeedsLead(all, page, seeds.Keys);
    kept, passes := Fixpoint(all, page, seeds);
    forall n | Leads(all, page, n)
      ensures n in kept
    {
      KeptExactlyLeading(all, page, kept.Keys, n);
    }
    if DistinctNames(all) {
      forall i | 0 <= i < |all| && all[i].name in kept
        ensures kept[all[i].name] == Trimmed(Within(all[i].hosts, page), [])
      {
        assert Within(all[i].hosts, page) != [] ==> OnPage(all, page, all[i].name);
      }
    }
    kept := TrimChildren(all, kept);
  }

  lemma {:induction false} SmallerSet(a: set<string>, b: set<string>)
    requires a < b
    ensures |a| < |b|
  {
    var x :| x in b && x !in a;
    assert a <= b - {x};
    SubsetSize(a, b - {x});
  }

  lemma {:induction false} SubsetSize(a: set<string>, b: set<string>)
    requires a <= b
    ensures |a| <= |b|
    decreases a
  {
    if a != {} {
      var x :| x in a;
      SubsetSize(a - {x}, b - {x});
    }
  }
}
