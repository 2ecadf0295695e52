/** Names as the program orders them: strings compared code point by code point,
    sorted lists of names, and the pieces of a name between its dots. */
module Text {

  /** Strict lexicographic order. */
  predicate Before(a: string, b: string) {
    b != "" && (a == "" || a[0] < b[0] || (a[0] == b[0] && Before(a[1..], b[1..])))
  }

  predicate AtMost(a: string, b: string) {
    a == b || Before(a, b)
  }

  lemma {:induction false} BeforeIrreflexive(a: string)
    ensures !Before(a, a)
  {
    if a != "" {
      BeforeIrreflexive(a[1..]);
    }
  }

  lemma {:induction false} BeforeTransitive(a: string, b: string, c: string)
    requires Before(a, b) && Before(b, c)
    ensures Before(a, c)
  {
    if a != "" && a[0] == b[0] == c[0] {
      BeforeTransitive(a[1..], b[1..], c[1..]);
    }
  }

  lemma {:induction false} BeforeTotal(a: string, b: string)
    ensures a == b || Before(a, b) || Before(b, a)
  {
    if a != "" && b != "" && a[0] == b[0] {
      BeforeTotal(a[1..], b[1..]);
      assert a == [a[0]] + a[1..] && b == [b[0]] + b[1..];
    }
  }

  lemma BeforeAsymmetric(a: string, b: string)
    requires Before(a, b)
    ensures !Before(b, a)
  {
    if Before(b, a) {
      BeforeTransitive(a, b, a);
      BeforeIrreflexive(a);
    }
  }

  /** Strictly ascending: sorted, and no name twice. */
  predicate Ascending(s: seq<string>) {
    forall i, j | 0 <= i < j < |s| :: Before(s[i], s[j])
  }

  predicate Ordered(s: seq<string>) {
    forall i, j | 0 <= i < j < |s| :: AtMost(s[i], s[j])
  }

  predicate Distinct(s: seq<string>) {
    forall i, j | 0 <= i < j < |s| :: s[i] != s[j]
  }

  function Elements(s: seq<string>): set<string> {
    set x | x in s
  }

  /** A sorted list of distinct names is determined by the set of its names. */
  lemma {:induction false} AscendingUnique(a: seq<string>, b: seq<string>)
    requires Ascending(a) && Ascending(b)
    requires forall x :: x in a <==> x in b
    ensures a == b
  {
    EmptyHasNoElement(a);
    EmptyHasNoElement(b);
    if a != [] {
      assert a[0] in b;
      FirstIsLeast(a);
      FirstIsLeast(b);
      if a[0] != b[0] {
        assert b[0] in a;
        BeforeAsymmetric(a[0], b[0]);
      } else {
        forall x
          ensures x in a[1..] <==> x in b[1..]
        {
          BeforeIrreflexive(a[0]);
          assert x in a <==> x == a[0] || x in a[1..];
          assert x in b <==> x == b[0] || x in b[1..];
        }
        AscendingUnique(a[1..], b[1..]);
      }
    }
  }

  lemma EmptyHasNoElement(s: seq<string>)
    ensures s == [] <==> forall x :: x !in s
  {
    if s != [] {
      assert s[0] in s;
    }
  }

  lemma FirstIsLeast(s: seq<string>)
    requires Ascending(s) && s != []
    ensures forall x | x in s :: x == s[0] || Before(s[0], x)
  {
  }

  /** Those of a list that are in a set, in the list's order. */
  function Within(names: seq<string>, chosen: set<string>): (r: seq<string>)
    ensures forall n :: n in r <==> n in names && n in chosen
  {
    if names == [] then []
    else
      var earlier := Within(names[..|names| - 1], chosen);
      var last := names[|names| - 1];
      if last in chosen then earlier + [last] else earlier
  }

  /** Insert into a strictly ascending list; a name already there stays once. */
  function InsertNew(x: string, s: seq<string>): (r: seq<string>)
    requires Ascending(s)
    ensures Ascending(r)
    ensures forall y :: y in r <==> y == x || y in s
  {
    if s == [] then [x]
    else if x == s[0] then s
    else if Before(x, s[0]) then
      assert Ascending([x] + s) by {
        forall j | 0 <= j < |s|
          ensures Before(x, s[j])
        {
          if j > 0 { BeforeTransitive(x, s[0], s[j]); }
        }
      }
      [x] + s
    else
      var rest := InsertNew(x, s[1..]);
      assert Ascending([s[0]] + rest) by {
        forall j | 0 <= j < |rest|
          ensures Before(s[0], rest[j])
        {
          assert rest[j] in rest;
          BeforeTotal(x, s[0]);
        }
      }
      [s[0]] + rest
  }

  /** The names of a set, ascending: the order an ordered map iterates in. */
  ghost function Listing(names: set<string>): (r: seq<string>)
    ensures Ascending(r)
    ensures forall y :: y in r <==> y in names
  {
    if names == {} then []
    else
      var x :| x in names;
      InsertNew(x, Listing(names - {x}))
  }

  /** Builds the listing of a set at run time. */
  method List(names: set<string>) returns (r: seq<string>)
    ensures r == Listing(names)
  {
    r := [];
    var todo := names;
    while todo != {}
      invariant todo <= names
      invariant Ascending(r)
      invariant forall y :: y in r <==> y in names && y !in todo
      decreases todo
    {
      var x :| x in todo;
      r := InsertNew(x, r);
      todo := todo - {x};
    }
    AscendingUnique(r, Listing(names));
  }

  /** Insertion into an ordered list that may repeat names. */
  function Insert(x: string, s: seq<string>): (r: seq<string>)
    requires Ordered(s)
    ensures Ordered(r)
    ensures multiset(r) == multiset{x} + multiset(s)
    ensures |r| == |s| + 1
  {
    if s == [] then [x]
    else if AtMost(x, s[0]) then
      assert Ordered([x] + s) by {
        forall j | 0 <= j < |s|
          ensures AtMost(x, s[j])
        {
          if j > 0 && x != s[0] && s[0] != s[j] { BeforeTransitive(x, s[0], s[j]); }
        }
      }
      [x] + s
    else
      var rest := Insert(x, s[1..]);
      assert s == [s[0]] + s[1..];
      assert Ordered([s[0]] + rest) by {
        forall j | 0 <= j < |rest|
          ensures AtMost(s[0], rest[j])
        {
          assert rest[j] in multiset(rest);
          assert rest[j] == x || rest[j] in s[1..];
          BeforeTotal(x, s[0]);
        }
      }
      [s[0]] + rest
  }

  /** `sort`: ordered, same names with the same multiplicity. */
  function Sort(s: seq<string>): (r: seq<string>)
    ensures Ordered(r)
    ensures multiset(r) == multiset(s)
    ensures |r| == |s|
    ensures forall x :: x in r <==> x in s
  {
    if s == [] then []
    else
      assert s == [s[0]] + s[1..];
      var r := Insert(s[0], Sort(s[1..]));
      assert forall x :: x in r <==> x in multiset(r);
      assert forall x :: x in s <==> x in multiset(s);
      r
  }

  lemma {:induction false} DistinctCounts(s: seq<string>)
    ensures Distinct(s) <==> forall x | x in s :: multiset(s)[x] == 1
  {
    if s != [] {
      assert s == [s[0]] + s[1..];
      DistinctCounts(s[1..]);
      if Distinct(s) {
        assert s[0] !in s[1..];
      }
      if forall x | x in s :: multiset(s)[x] == 1 {
        assert multiset(s)[s[0]] == 1 + multiset(s[1..])[s[0]];
        assert s[0] !in s[1..];
        forall x | x in s[1..]
          ensures multiset(s[1..])[x] == 1
        {
          assert x in s && x != s[0];
        }
      }
    }
  }

  /** Sorting names that are all different gives a strictly ascending list. */
  lemma SortDistinct(s: seq<string>)
    requires Distinct(s)
    ensures Ascending(Sort(s))
  {
    DistinctCounts(s);
    DistinctCounts(Sort(s));
  }

  lemma SortKeepsRepeats(s: seq<string>)
    ensures Distinct(Sort(s)) <==> Distinct(s)
  {
    DistinctCounts(s);
    DistinctCounts(Sort(s));
  }

  /** `dedup`: drops a name equal to the one before it. */
  function Dedup(s: seq<string>): (r: seq<string>)
    ensures forall x :: x in r <==> x in s
    ensures Ordered(s) ==> Ascending(r)
    ensures s != [] ==> r != [] && r[0] == s[0]
  {
    if |s| <= 1 then s
    else
      var rest := Dedup(s[1..]);
      if s[0] == s[1] then rest
      else
        assert Ordered(s) ==> forall j | 0 <= j < |rest| :: Before(s[0], rest[j]) by {
          if Ordered(s) {
            forall j | 0 <= j < |rest|
              ensures Before(s[0], rest[j])
            {
              assert rest[j] in s[1..];
              if j > 0 { BeforeTransitive(s[0], rest[0], rest[j]); }
            }
          }
        }
        [s[0]] + rest
  }

  /** `sort` then `dedup` is the listing of the names that occur. */
  lemma SortDedupIsListing(s: seq<string>)
    ensures Dedup(Sort(s)) == Listing(Elements(s))
  {
    AscendingUnique(Dedup(Sort(s)), Listing(Elements(s)));
  }

  /** Sorting an ordered list changes nothing. */
  lemma {:induction false} SortOrdered(s: seq<string>)
    requires Ordered(s)
    ensures Sort(s) == s
  {
    if s != [] {
      SortOrdered(s[1..]);
      assert s == [s[0]] + s[1..];
    }
  }

  /** One name comes before another when it begins it, or has the smaller character
      where they first differ. */
  lemma {:induction false} BeforeMeans(a: string, b: string)
    ensures Before(a, b) <==>
            exists n | 0 <= n <= |a| && n < |b| :: a[..n] == b[..n] && (n == |a| || a[n] < b[n])
  {
    forall n | 0 < n <= |a| && n < |b| && a[..n] == b[..n]
      ensures a[0] == b[0]
    {
      assert a[..n][0] == b[..n][0];
    }
    if a != "" && b != "" && a[0] == b[0] {
      BeforeMeans(a[1..], b[1..]);
      if Before(a, b) {
        var n :| 0 <= n <= |a[1..]| && n < |b[1..]| && a[1..][..n] == b[1..][..n] && (n == |a[1..]| || a[1..][n] < b[1..][n]);
        assert a[..n + 1] == [a[0]] + a[1..][..n] && b[..n + 1] == [b[0]] + b[1..][..n];
      }
      if n :| 0 <= n <= |a| && n < |b| && a[..n] == b[..n] && (n == |a| || a[n] < b[n]) {
        assert n > 0;
        assert a[1..][..n - 1] == a[..n][1..] && b[1..][..n - 1] == b[..n][1..];
      }
    } else if Before(a, b) {
      assert a[..0] == b[..0];
    }
  }

  /** Restricting a list keeps its order and its repetitions. */
  lemma {:induction false} WithinKeepsOrder(first: seq<string>, second: seq<string>, chosen: set<string>)
    ensures Within(first + second, chosen) == Within(first, chosen) + Within(second, chosen)
  {
    if second == [] {
      assert first + second == first;
    } else {
      var n := |second| - 1;
      assert (first + second)[..|first| + n] == first + second[..n];
      WithinKeepsOrder(first, second[..n], chosen);
    }
  }

  /** And a single name stays if it is in the set. */
  lemma WithinOfOne(x: string, chosen: set<string>)
    ensures Within([x], chosen) == if x in chosen then [x] else []
  {
    assert [x][..0] == [];
  }
}
