/** Dotted paths into host variables, and the shaping of a response by the paths
    it keeps and drops (src/domain/var_path.rs:22-169).

    A place in a JSON tree is the list of keys that leads to it. Shaping only
    ever prunes a tree: what a result holds is described by the places that are
    present in it. */
module VarPath {
  import opened Json

  type Place = seq<string>

  // ----- paths and places -----

  /** The pieces of a path between its dots. */
  function Split(path: string): (r: Place)
    ensures r != []
  {
    if path == "" then [""]
    else
      var rest := Split(path[1..]);
      if path[0] == '.' then [""] + rest else [[path[0]] + rest[0]] + rest[1..]
  }

  function Joined(place: Place): string
    requires place != []
  {
    if |place| == 1 then place[0] else place[0] + "." + Joined(place[1..])
  }

  lemma {:induction false} JoinedSplit(path: string)
    ensures Joined(Split(path)) == path
  {
    if path != "" {
      JoinedSplit(path[1..]);
      var rest := Split(path[1..]);
      assert path == [path[0]] + path[1..];
      if path[0] == '.' {
        assert Split(path)[1..] == rest;
      } else {
        assert Split(path)[1..] == rest[1..];
      }
    }
  }

  lemma {:induction false} PiecesHaveNoDots(path: string)
    ensures forall k | 0 <= k < |Split(path)| :: '.' !in Split(path)[k]
  {
    if path != "" {
      PiecesHaveNoDots(path[1..]);
      var rest := Split(path[1..]);
      forall k | 0 <= k < |Split(path)|
        ensures '.' !in Split(path)[k]
      {
        if path[0] == '.' {
          assert k > 0 ==> Split(path)[k] == rest[k - 1];
        } else {
          assert Split(path)[k] == if k > 0 then rest[k] else [path[0]] + rest[0];
        }
      }
    }
  }

  /** Splitting loses nothing, and a single piece is a path without dots. */
  lemma {:induction false} SplitInverse(path: string)
    ensures Joined(Split(path)) == path
    ensures forall k | 0 <= k < |Split(path)| :: '.' !in Split(path)[k]
    ensures |Split(path)| == 1 <==> '.' !in path
    ensures '.' !in path ==> Split(path) == [path]
  {
    JoinedSplit(path);
    PiecesHaveNoDots(path);
    if |Split(path)| == 1 {
      assert Split(path)[0] == path;
    } else {
      var pieces := Split(path);
      assert (pieces[0] + ".")[|pieces[0]|] == '.';
      assert path[|pieces[0]|] == '.';
    }
  }

  /** What stands at a place, if every step on the way is an object with that key. */
  function At(tree: Json, place: Place): Option<Json> {
    if place == [] then Some(tree)
    else if tree.Obj? && place[0] in tree.fields then At(tree.fields[place[0]], place[1..])
    else None
  }

  predicate Present(tree: Json, place: Place) {
    At(tree, place).Some?
  }

  /** The place a path names: a top-level key of that name, dots and all, comes
      before the path's own steps. */
  function PlaceOf(vars: HostVars, path: string): (place: Place)
    ensures place != []
  {
    if path in vars then [path] else Split(path)
  }

  function Lookup(vars: HostVars, path: string): Option<Json> {
    At(Obj(vars), PlaceOf(vars, path))
  }

  method FindValue(vars: HostVars, path: string) returns (r: Option<Json>)
    ensures r == Lookup(vars, path)
  {
    if path in vars {
      KeyPresent(vars, path);
      return Some(vars[path]);
    }
    var segments := Split(path);
    if segments[0] !in vars {
      return None;
    }
    var current := vars[segments[0]];
    for i := 1 to |segments|
      invariant At(Obj(vars), segments) == At(current, segments[i..])
    {
      if !current.Obj? || segments[i] !in current.fields {
        return None;
      }
      assert segments[i..][1..] == segments[i + 1..];
      current := current.fields[segments[i]];
    }
    r := Some(current);
  }

  // ----- prunings -----

  /** A tree with some keys of some of its objects taken away. */
  predicate Prunes(a: Json, b: Json) {
    || a == b
    || (a.Obj? && b.Obj? && forall k | k in a.fields :: k in b.fields && Prunes(a.fields[k], b.fields[k]))
  }

  lemma {:induction false} PruningHasPlaces(a: Json, b: Json, place: Place)
    requires Prunes(a, b) && Present(a, place)
    ensures Present(b, place) && Prunes(At(a, place).value, At(b, place).value)
  {
    if place != [] && a != b {
      PruningHasPlaces(a.fields[place[0]], b.fields[place[0]], place[1..]);
    }
  }

  /** Two prunings of one tree compare as the places present in them do. */
  lemma {:induction false} PlacesOrderPrunings(a: Json, b: Json, tree: Json)
    requires Prunes(a, tree) && Prunes(b, tree)
    requires forall place | Present(a, place) :: Present(b, place)
    ensures Prunes(a, b)
  {
    if tree.Obj? {
      forall k | k in a.fields
        ensures k in b.fields && Prunes(a.fields[k], b.fields[k])
      {
        assert Present(a, [k]);
        forall place | Present(a.fields[k], place)
          ensures Present(b.fields[k], place)
        {
          StepDown(a, k, place);
          StepDown(b, k, place);
          assert Present(a, [k] + place);
        }
        PlacesOrderPrunings(a.fields[k], b.fields[k], tree.fields[k]);
      }
    }
  }

  lemma {:induction false} StepDown(tree: Json, key: string, place: Place)
    requires tree.Obj? && key in tree.fields
    ensures At(tree, [key] + place) == At(tree.fields[key], place)
  {
    assert ([key] + place)[1..] == place;
  }

  lemma {:induction false} KeyPresent(vars: HostVars, key: string)
    ensures At(Obj(vars), [key]) == if key in vars then Some(vars[key]) else None
  {
    assert [key][1..] == [];
  }

  lemma {:induction false} PrunesAntisymmetric(a: Json, b: Json)
    requires Prunes(a, b) && Prunes(b, a)
    ensures a == b
  {
    if a.Obj? && b.Obj? {
      forall k | k in a.fields
        ensures a.fields[k] == b.fields[k]
      {
        PrunesAntisymmetric(a.fields[k], b.fields[k]);
      }
      assert a.fields == b.fields;
    }
  }

  /** A pruning is determined by its places. */
  lemma {:induction false} PlacesDetermine(a: Json, b: Json, tree: Json)
    requires Prunes(a, tree) && Prunes(b, tree)
    requires forall place :: Present(a, place) <==> Present(b, place)
    ensures a == b
  {
    PlacesOrderPrunings(a, b, tree);
    PlacesOrderPrunings(b, a, tree);
    PrunesAntisymmetric(a, b);
  }

  lemma {:induction false} AtConcat(tree: Json, first: Place, second: Place)
    requires Present(tree, first)
    ensures At(tree, first + second) == At(At(tree, first).value, second)
  {
    if first == [] {
      assert first + second == second;
    } else {
      assert (first + second)[1..] == first[1..] + second;
      AtConcat(tree.fields[first[0]], first[1..], second);
    }
  }

  lemma {:induction false} PrefixTail(a: Place, b: Place)
    requires a != [] && b != []
    ensures a <= b <==> a[0] == b[0] && a[1..] <= b[1..]
  {
    if a[0] == b[0] && a[1..] <= b[1..] {
      assert a == [a[0]] + a[1..] && b == [b[0]] + b[1..];
    }
  }

  // ----- what shaping is wanted to do -----

  /** The place of a path to keep that finds something leads to, is, or leads
      from `place`. */
  predicate OnKept(vars: HostVars, paths: seq<string>, place: Place) {
    exists p | p in paths ::
      && Present(Obj(vars), PlaceOf(vars, p))
      && (place <= PlaceOf(vars, p) || PlaceOf(vars, p) <= place)
  }

  /** The pruning that holds exactly what is on, above or below a kept path. */
  ghost predicate Keeps(vars: HostVars, paths: seq<string>, kept: HostVars) {
    && Prunes(Obj(kept), Obj(vars))
    && forall place | place != [] ::
         Present(Obj(kept), place) <==> Present(Obj(vars), place) && OnKept(vars, paths, place)
  }

  /** The path's own steps are what is dropped: it is no top-level key, or has no
      dot, or is named again once that key is gone. */
  predicate DropsSteps(vars: HostVars, paths: seq<string>, p: string) {
    p in paths && (p !in vars || '.' !in p || multiset(paths)[p] >= 2)
  }

  /** Dropping takes the place away. */
  predicate Gone(vars: HostVars, paths: seq<string>, place: Place) {
    exists p | p in paths ::
      || (p in vars && [p] <= place)
      || (DropsSteps(vars, paths, p) && Split(p) <= place)
  }

  /** The pruning that lacks exactly the dropped places and all below them. */
  ghost predicate Drops(vars: HostVars, paths: seq<string>, rest: HostVars) {
    && Prunes(Obj(rest), Obj(vars))
    && forall place | place != [] ::
         Present(Obj(rest), place) <==> Present(Obj(vars), place) && !Gone(vars, paths, place)
  }

  // ----- keeping -----

  /** A value put at a place, with objects created on the way where nothing is.
      Nothing changes where the way is barred by something else. */
  function Put(target: Json, place: Place, value: Json): Json
    decreases |place|
  {
    if place == [] || !target.Obj? then target
    else if |place| == 1 then Obj(target.fields[place[0] := value])
    else Obj(target.fields[place[0] := Put(ChildOr(target, place[0]), place[1..], value)])
  }

  function ChildOr(target: Json, key: string): Json
    requires target.Obj?
  {
    if key in target.fields then target.fields[key] else Obj(map[])
  }

  /** The tree whose cursor, that deep below it, now points at `below`: the objects on
      the way down, outermost first, with the steps taken. */
  function Restored(above: seq<map<string, Json>>, steps: Place, below: Json): Json
    requires |above| == |steps|
  {
    if above == [] then below
    else
      var n := |above| - 1;
      Restored(above[..n], steps[..n], Obj(above[n][steps[n] := below]))
  }

  lemma {:induction false} RestoredOneDeeper(above: seq<map<string, Json>>, steps: Place, fields: map<string, Json>, key: string, below: Json)
    requires |above| == |steps|
    ensures Restored(above + [fields], steps + [key], below) == Restored(above, steps, Obj(fields[key := below]))
  {
    assert (above + [fields])[..|above|] == above && (steps + [key])[..|steps|] == steps;
  }

  /** A cursor walks down the parents, creating them; the last key is set where
      it ends. What it passed is put back around it. */
  method InsertPath(target: Json, segments: Place, value: Json) returns (r: Json)
    ensures r == Put(target, segments, value)
  {
    if segments == [] {
      return target;
    }
    var n := |segments| - 1;
    var current := target;
    var above: seq<map<string, Json>> := [];
    for i := 0 to n
      invariant |above| == i
      invariant Put(target, segments, value) == Restored(above, segments[..i], Put(current, segments[i..], value))
      invariant i == 0 ==> current == target
      invariant current.Obj? || i > 0 ==> target.Obj?
    {
      if !current.Obj? {
        r := Unwound(above, segments[..i], current);
        return;
      }
      assert segments[i..][1..] == segments[i + 1..] && segments[..i + 1] == segments[..i] + [segments[i]];
      RestoredOneDeeper(above, segments[..i], current.fields, segments[i],
                        Put(ChildOr(current, segments[i]), segments[i + 1..], value));
      above := above + [current.fields];
      current := ChildOr(current, segments[i]);
    }
    if current.Obj? {
      current := Obj(current.fields[segments[n] := value]);
    }
    r := Unwound(above, segments[..n], current);
  }

  method Unwound(above: seq<map<string, Json>>, steps: Place, below: Json) returns (r: Json)
    requires |above| == |steps|
    ensures r == Restored(above, steps, below)
  {
    r := below;
    var i := |above|;
    assert above[..i] == above && steps[..i] == steps;
    while i > 0
      invariant 0 <= i <= |above|
      invariant Restored(above[..i], steps[..i], r) == Restored(above, steps, below)
    {
      i := i - 1;
      assert above[..i + 1][..i] == above[..i] && steps[..i + 1][..i] == steps[..i];
      r := Obj(above[i][steps[i] := r]);
    }
  }

  /** Copying to a pruning what the tree holds at a place adds the places on,
      above and below that one. */
  lemma {:induction false} PutPrunes(w: Json, tree: Json, place: Place, value: Json)
    requires place != [] && Prunes(w, tree) && At(tree, place) == Some(value)
    ensures w.Obj? && Prunes(Put(w, place, value), tree)
    decreases |place|
  {
    var k := place[0];
    if |place| > 1 {
      PutPrunes(ChildOr(w, k), tree.fields[k], place[1..], value);
    }
  }

  lemma {:induction false} PutPlaces(w: Json, tree: Json, place: Place, value: Json, other: Place)
    requires place != [] && Prunes(w, tree) && At(tree, place) == Some(value)
    ensures Present(Put(w, place, value), other)
       <==> Present(w, other) || other <= place || (place <= other && Present(tree, other))
    decreases |place|
  {
    if other == [] {
      return;
    }
    PrefixTail(place, other);
    PrefixTail(other, place);
    var k := place[0];
    if other[0] == k {
      if |place| == 1 {
        if Present(w, other) {
          PruningHasPlaces(w, tree, other);
        }
      } else {
        PutPlaces(ChildOr(w, k), tree.fields[k], place[1..], value, other[1..]);
      }
    }
  }

  lemma {:induction false} OnKeptOneMore(vars: HostVars, paths: seq<string>, p: string, place: Place)
    ensures OnKept(vars, paths + [p], place) <==>
              || OnKept(vars, paths, place)
              || (Present(Obj(vars), PlaceOf(vars, p))
                  && (place <= PlaceOf(vars, p) || PlaceOf(vars, p) <= place))
  {
  }

  lemma {:induction false} PrefixPresent(tree: Json, a: Place, b: Place)
    requires a <= b && Present(tree, b)
    ensures Present(tree, a)
  {
    if a != [] {
      PrefixTail(a, b);
      PrefixPresent(tree.fields[a[0]], a[1..], b[1..]);
    }
  }

  lemma {:induction false} KeepOneMore(vars: HostVars, paths: seq<string>, p: string, was: HostVars, out: HostVars)
    requires Keeps(vars, paths, was)
    requires var place := PlaceOf(vars, p);
             if Present(Obj(vars), place) then Obj(out) == Put(Obj(was), place, At(Obj(vars), place).value)
             else out == was
    ensures Keeps(vars, paths + [p], out)
  {
    var place := PlaceOf(vars, p);
    if Present(Obj(vars), place) {
      PutPrunes(Obj(was), Obj(vars), place, At(Obj(vars), place).value);
    }
    forall other: Place | other != []
      ensures Present(Obj(out), other) <==> Present(Obj(vars), other) && OnKept(vars, paths + [p], other)
    {
      OnKeptOneMore(vars, paths, p, other);
      if Present(Obj(vars), place) {
        PutPlaces(Obj(was), Obj(vars), place, At(Obj(vars), place).value, other);
        if other <= place {
          PrefixPresent(Obj(vars), other, place);
        }
      }
    }
  }

  method KeepPaths(vars: HostVars, paths: seq<string>) returns (out: HostVars)
    ensures Keeps(vars, paths, out)
  {
    out := map[];
    for i := 0 to |paths|
      invariant Keeps(vars, paths[..i], out)
    {
      var path := paths[i];
      ghost var was := out;
      if path in vars {
        KeyPresent(vars, path);
        out := out[path := vars[path]];
      } else {
        var value := FindValue(vars, path);
        if value.Some? {
          var segments := Split(path);
          var root, rest := segments[0], segments[1..];
          SplitInverse(path);
          assert rest != [];
          assert root in out ==> Prunes(out[root], vars[root]);
          if root !in out || out[root].Obj? {
            var inserted := InsertPath(ChildOr(Obj(out), root), rest, value.value);
            out := out[root := inserted];
          }
        }
      }
      assert paths[..i + 1] == paths[..i] + [path];
      KeepOneMore(vars, paths[..i], path, was, out);
    }
    assert paths[..|paths|] == paths;
  }

  // ----- dropping -----

  function RemovePath(tree: Json, place: Place): Json {
    if !tree.Obj? || place == [] then tree
    else if |place| == 1 then Obj(tree.fields - {place[0]})
    else if place[0] in tree.fields then Obj(tree.fields[place[0] := RemovePath(tree.fields[place[0]], place[1..])])
    else tree
  }

  lemma {:induction false} RemovePrunes(tree: Json, place: Place)
    ensures Prunes(RemovePath(tree, place), tree)
  {
    if tree.Obj? && |place| > 1 && place[0] in tree.fields {
      RemovePrunes(tree.fields[place[0]], place[1..]);
    }
  }

  lemma {:induction false} RemovedPlaces(tree: Json, place: Place, other: Place)
    requires place != []
    ensures Present(RemovePath(tree, place), other) <==> Present(tree, other) && !(place <= other)
  {
    if other != [] && tree.Obj? {
      PrefixTail(place, other);
      if other[0] == place[0] && |place| > 1 && place[0] in tree.fields {
        RemovedPlaces(tree.fields[place[0]], place[1..], other[1..]);
      }
    }
  }

  lemma {:induction false} PrunesTransitive(a: Json, b: Json, c: Json)
    requires Prunes(a, b) && Prunes(b, c)
    ensures Prunes(a, c)
  {
    if a != b && b != c {
      forall k | k in a.fields
        ensures k in c.fields && Prunes(a.fields[k], c.fields[k])
      {
        PrunesTransitive(a.fields[k], b.fields[k], c.fields[k]);
      }
    }
  }

  lemma {:induction false} GoneOneMore(vars: HostVars, paths: seq<string>, p: string, was: HostVars, place: Place)
    requires Drops(vars, paths, was)
    ensures Gone(vars, paths + [p], place) <==> Gone(vars, paths, place) || PlaceOf(was, p) <= place
  {
    SplitInverse(p);
    KeyPresent(was, p);
    KeyPresent(vars, p);
    assert p in was <==> Present(Obj(was), [p]);
    if p in vars {
      GoneKey(vars, paths, p);
    }
    assert p in was <==> p in vars && p !in paths;
    var more := paths + [p];
    forall q | q != p
      ensures DropsSteps(vars, more, q) <==> DropsSteps(vars, paths, q)
    {
    }
    assert DropsSteps(vars, more, p) <==> p !in vars || '.' !in p || p in paths;
    assert Gone(vars, more, place) <==>
        || Gone(vars, paths, place)
        || (p in vars && [p] <= place)
        || (DropsSteps(vars, more, p) && Split(p) <= place);
  }

  lemma {:induction false} OnePiece(q: string, key: string)
    requires [q] <= [key] || Split(q) <= [key]
    ensures q == key
  {
    SplitInverse(q);
    if Split(q) <= [key] {
      assert Split(q)[0] == [key][0];
    } else {
      assert [q][0] == [key][0];
    }
  }

  /** A top-level key goes exactly when it is named itself. */
  lemma {:induction false} GoneKey(vars: HostVars, paths: seq<string>, key: string)
    requires key in vars
    ensures Gone(vars, paths, [key]) <==> key in paths
  {
    if Gone(vars, paths, [key]) {
      var q :| q in paths && ((q in vars && [q] <= [key]) || (DropsSteps(vars, paths, q) && Split(q) <= [key]));
      OnePiece(q, key);
    }
  }

  lemma {:induction false} DropOneMore(vars: HostVars, paths: seq<string>, p: string, was: HostVars, out: HostVars)
    requires Drops(vars, paths, was)
    requires Obj(out) == RemovePath(Obj(was), PlaceOf(was, p))
    ensures Drops(vars, paths + [p], out)
  {
    var place := PlaceOf(was, p);
    RemovePrunes(Obj(was), place);
    PrunesTransitive(Obj(out), Obj(was), Obj(vars));
    forall other: Place | other != []
      ensures Present(Obj(out), other) <==> Present(Obj(vars), other) && !Gone(vars, paths + [p], other)
    {
      GoneOneMore(vars, paths, p, was, other);
      RemovedPlaces(Obj(was), place, other);
    }
  }

  method DropPaths(vars: HostVars, paths: seq<string>) returns (out: HostVars)
    ensures Drops(vars, paths, out)
  {
    out := vars;
    for i := 0 to |paths|
      invariant Drops(vars, paths[..i], out)
    {
      var path := paths[i];
      ghost var was := out;
      if path in out {
        out := out - {path};
      } else {
        var segments := Split(path);
        var root, rest := segments[0], segments[1..];
        SplitInverse(path);
        if rest != [] && root in out {
          out := out[root := RemovePath(out[root], rest)];
        }
        assert rest == [] ==> was - {path} == was;
      }
      assert paths[..i + 1] == paths[..i] + [path];
      DropOneMore(vars, paths[..i], path, was, out);
    }
    assert paths[..|paths|] == paths;
  }

  /** Both halves of a selection: no `keep` keeps everything, and what is dropped
      is dropped from what was kept (src/domain/var_path.rs:69-76). */
  method ShapeHost(vars: HostVars, keep: Option<seq<string>>, drop: seq<string>)
    returns (out: HostVars, ghost kept: HostVars)
    ensures if keep.Some? then Keeps(vars, keep.value, kept) else kept == vars
    ensures Drops(kept, drop, out)
    ensures keep == None && drop == [] ==> out == vars
  {
    out := vars;
    if keep.Some? {
      out := KeepPaths(vars, keep.value);
    }
    kept := out;
    out := DropPaths(out, drop);
    if drop == [] {
      PlacesDetermine(Obj(out), Obj(kept), Obj(kept));
    }
  }

  // ----- what that means for whoever asks -----

  /** A kept path looks up what it looked up before. */
  lemma {:induction false} KeptPathsLookUpTheSame(vars: HostVars, paths: seq<string>, kept: HostVars, p: string)
    requires Keeps(vars, paths, kept) && p in paths
    ensures Lookup(kept, p) == Lookup(vars, p)
  {
    var place := PlaceOf(vars, p);
    KeyPresent(kept, p);
    KeyPresent(vars, p);
    if Present(Obj(vars), place) {
      KeptPlaceIsWhole(vars, paths, kept, p);
      assert p in vars ==> Present(Obj(kept), [p]);
      assert p in kept ==> Present(Obj(kept), [p]);
    } else if Present(Obj(kept), place) {
      PruningHasPlaces(Obj(kept), Obj(vars), place);
    }
  }

  lemma {:induction false} KeptPlaceIsWhole(vars: HostVars, paths: seq<string>, kept: HostVars, p: string)
    requires Keeps(vars, paths, kept) && p in paths
    requires Present(Obj(vars), PlaceOf(vars, p))
    ensures At(Obj(kept), PlaceOf(vars, p)) == At(Obj(vars), PlaceOf(vars, p))
  {
    var place := PlaceOf(vars, p);
    assert Present(Obj(kept), place);
    PruningHasPlaces(Obj(kept), Obj(vars), place);
    var a, b := At(Obj(kept), place).value, At(Obj(vars), place).value;
    forall below
      ensures Present(a, below) <==> Present(b, below)
    {
      AtConcat(Obj(kept), place, below);
      AtConcat(Obj(vars), place, below);
      assert place <= place + below;
      assert Present(Obj(kept), place + below) <==> Present(Obj(vars), place + below);
    }
    PlacesDetermine(a, b, b);
  }

  /** No smaller pruning holds the kept paths. */
  lemma {:induction false} KeptIsLeast(vars: HostVars, paths: seq<string>, kept: HostVars, rival: HostVars)
    requires Keeps(vars, paths, kept)
    requires Prunes(Obj(rival), Obj(vars))
    requires forall p | p in paths :: At(Obj(rival), PlaceOf(vars, p)) == At(Obj(vars), PlaceOf(vars, p))
    ensures Prunes(Obj(kept), Obj(rival))
  {
    forall place | Present(Obj(kept), place)
      ensures Present(Obj(rival), place)
    {
      if place != [] {
        KeptPlaceIsHeld(vars, paths, rival, place);
      }
    }
    PlacesOrderPrunings(Obj(kept), Obj(rival), Obj(vars));
  }

  lemma {:induction false} KeptPlaceIsHeld(vars: HostVars, paths: seq<string>, rival: HostVars, place: Place)
    requires Present(Obj(vars), place) && OnKept(vars, paths, place)
    requires forall p | p in paths :: At(Obj(rival), PlaceOf(vars, p)) == At(Obj(vars), PlaceOf(vars, p))
    ensures Present(Obj(rival), place)
  {
    hide At, PlaceOf;
    var p :| p in paths && Present(Obj(vars), PlaceOf(vars, p))
             && (place <= PlaceOf(vars, p) || PlaceOf(vars, p) <= place);
    var at := PlaceOf(vars, p);
    if place <= at {
      PrefixPresent(Obj(rival), place, at);
    } else {
      assert place == at + place[|at|..];
      AtConcat(Obj(rival), at, place[|at|..]);
      AtConcat(Obj(vars), at, place[|at|..]);
    }
  }

  /** Neither the order nor the repetition of the paths to keep matters. */
  lemma {:induction false} KeepOrderIsIrrelevant(vars: HostVars, paths: seq<string>, others: seq<string>, a: HostVars, b: HostVars)
    requires forall p :: p in paths <==> p in others
    requires Keeps(vars, paths, a) && Keeps(vars, others, b)
    ensures a == b
  {
    forall place
      ensures Present(Obj(a), place) <==> Present(Obj(b), place)
    {
      assert OnKept(vars, paths, place) <==> OnKept(vars, others, place);
    }
    PlacesDetermine(Obj(a), Obj(b), Obj(vars));
  }

  /** No larger pruning lacks the dropped places. */
  lemma {:induction false} DroppedIsGreatest(vars: HostVars, paths: seq<string>, rest: HostVars, rival: HostVars)
    requires Drops(vars, paths, rest)
    requires Prunes(Obj(rival), Obj(vars))
    requires forall place | place != [] && Gone(vars, paths, place) :: !Present(Obj(rival), place)
    ensures Prunes(Obj(rival), Obj(rest))
  {
    forall place | Present(Obj(rival), place)
      ensures Present(Obj(rest), place)
    {
      PruningHasPlaces(Obj(rival), Obj(vars), place);
    }
    PlacesOrderPrunings(Obj(rival), Obj(rest), Obj(vars));
  }

  lemma {:induction false} DropOrderIsIrrelevant(vars: HostVars, paths: seq<string>, others: seq<string>, a: HostVars, b: HostVars)
    requires multiset(paths) == multiset(others)
    requires Drops(vars, paths, a) && Drops(vars, others, b)
    ensures a == b
  {
    assert forall p :: p in paths <==> p in multiset(paths);
    assert forall p :: p in others <==> p in multiset(others);
    forall p
      ensures DropsSteps(vars, paths, p) <==> DropsSteps(vars, others, p)
    {
    }
    forall place
      ensures Present(Obj(a), place) <==> Present(Obj(b), place)
    {
      assert Gone(vars, paths, place) <==> Gone(vars, others, place);
    }
    PlacesDetermine(Obj(a), Obj(b), Obj(vars));
  }

  /** No dropped place is on the way to `place`, there, or below it. */
  predicate Unrelated(vars: HostVars, paths: seq<string>, place: Place) {
    forall p | p in paths ::
      && (p in vars ==> !([p] <= place) && !(place <= [p]))
      && (DropsSteps(vars, paths, p) ==> !(Split(p) <= place) && !(place <= Split(p)))
  }

  lemma {:induction false} DropLeavesUnrelatedAlone(vars: HostVars, paths: seq<string>, rest: HostVars, place: Place)
    requires Drops(vars, paths, rest)
    requires place != [] && Unrelated(vars, paths, place)
    ensures At(Obj(rest), place) == At(Obj(vars), place)
  {
    assert !Gone(vars, paths, place);
    assert Present(Obj(rest), place) <==> Present(Obj(vars), place);
    if Present(Obj(vars), place) {
      PruningHasPlaces(Obj(rest), Obj(vars), place);
      var a, b := At(Obj(rest), place).value, At(Obj(vars), place).value;
      forall below
        ensures Present(a, below) <==> Present(b, below)
      {
        AtConcat(Obj(rest), place, below);
        AtConcat(Obj(vars), place, below);
        UnrelatedBelow(vars, paths, place, below);
        assert Present(Obj(rest), place + below) <==> Present(Obj(vars), place + below);
      }
      PlacesDetermine(a, b, b);
    }
  }

  lemma {:induction false} UnrelatedBelow(vars: HostVars, paths: seq<string>, place: Place, below: Place)
    requires Unrelated(vars, paths, place)
    ensures !Gone(vars, paths, place + below)
  {
    if Gone(vars, paths, place + below) {
      var p :| p in paths && ((p in vars && [p] <= place + below) || (DropsSteps(vars, paths, p) && Split(p) <= place + below));
      if p in vars && [p] <= place + below {
        Comparable([p], place, below);
      } else {
        Comparable(Split(p), place, below);
      }
    }
  }

  lemma {:induction false} Comparable(l: Place, place: Place, below: Place)
    requires l <= place + below
    ensures l <= place || place <= l
  {
    if |l| <= |place| {
      assert l == (place + below)[..|l|] == place[..|l|];
    } else {
      assert place == (place + below)[..|place|] == l[..|place|];
    }
  }

  /** A top-level key with a dot hides an object's key of the same path. */
  predicate Hides(vars: HostVars, p: string) {
    p in vars && '.' in p && Present(Obj(vars), Split(p))
  }

  /** Every dropped path looks up nothing afterwards, exactly when each key that
      hides a path comes with a path dropped by its steps on the way to it. */
  lemma {:induction false} DroppedPathsLookUpNothingIff(vars: HostVars, paths: seq<string>, rest: HostVars)
    requires Drops(vars, paths, rest)
    ensures (forall p | p in paths :: Lookup(rest, p) == None)
       <==> (forall p | p in paths && Hides(vars, p) ::
               exists q | q in paths :: DropsSteps(vars, paths, q) && Split(q) <= Split(p))
  {
    forall p | p in paths
      ensures Lookup(rest, p) == None <==>
        (Hides(vars, p) ==> exists q | q in paths :: DropsSteps(vars, paths, q) && Split(q) <= Split(p))
    {
      DroppedPathLooksUpNothingIff(vars, paths, rest, p);
    }
  }

  lemma {:induction false} DroppedPathLooksUpNothingIff(vars: HostVars, paths: seq<string>, rest: HostVars, p: string)
    requires Drops(vars, paths, rest) && p in paths
    ensures Lookup(rest, p) == None <==>
      (Hides(vars, p) ==> exists q | q in paths :: DropsSteps(vars, paths, q) && Split(q) <= Split(p))
  {
    SplitInverse(p);
    KeyPresent(rest, p);
    assert p !in rest by {
      if p in rest {
        assert Present(Obj(rest), [p]);
        PruningHasPlaces(Obj(rest), Obj(vars), [p]);
        KeyPresent(vars, p);
        assert Gone(vars, paths, [p]);
      }
    }
    if q :| q in paths && q in vars && [q] <= Split(p) {
      assert q == Split(p)[0];
      SplitInverse(q);
      assert DropsSteps(vars, paths, q);
    }
    assert Gone(vars, paths, Split(p)) <==> exists q | q in paths :: DropsSteps(vars, paths, q) && Split(q) <= Split(p);
  }

  /** In particular, with no dot in any top-level key nothing dropped is found again. */
  lemma {:induction false} PlainKeysDropCleanly(vars: HostVars, paths: seq<string>, rest: HostVars, p: string)
    requires forall key | key in vars :: '.' !in key
    requires Drops(vars, paths, rest) && p in paths
    ensures Lookup(rest, p) == None
  {
    DroppedPathsLookUpNothingIff(vars, paths, rest);
  }

  /** Dropping `a.b` from a host with both a key `a.b` and an object `a` with a key
      `b` leaves `a.b` to be found. */
  lemma {:induction false} HiddenPathSurvives(rest: HostVars)
    requires Drops(map["a.b" := Null, "a" := Obj(map["b" := Bool(true)])], ["a.b"], rest)
    ensures Lookup(rest, "a.b") != None
  {
    var vars := map["a.b" := Null, "a" := Obj(map["b" := Bool(true)])];
    var path := "a.b";
    SplitInverse("b");
    assert path[1..] == ".b" && ".b"[1..] == "b";
    assert Split(".b") == ["", "b"];
    assert path[0] == 'a' && ['a'] + "" == "a" && ["", "b"][1..] == ["b"];
    assert Split(path) == ["a", "b"];
    assert Split(path)[1..] == ["b"];
    KeyPresent(map["b" := Bool(true)], "b");
    assert Hides(vars, path);
    DroppedPathsLookUpNothingIff(vars, [path], rest);
  }

  /** What a lookup is: a top-level key of that name, dots and all; else, from the piece
      before the first dot on, what the nested objects have under the others. */
  lemma {:induction false} LookupMeans(vars: HostVars, key: string, rest: string)
    requires '.' !in key
    ensures Lookup(vars, key) == if key in vars then Some(vars[key]) else None
    ensures var path := key + "." + rest;
            Lookup(vars, path) ==
              if path in vars then Some(vars[path])
              else if key in vars && vars[key].Obj? then At(vars[key], Split(rest))
              else None
  {
    SplitInverse(key);
    KeyPresent(vars, key);
    var path := key + "." + rest;
    SplitFirst(key, rest);
    KeyPresent(vars, path);
    AtMeans(Obj(vars), key, Split(rest));
    assert Split(key) == [key];
    assert key in vars && !vars[key].Obj? ==> At(vars[key], Split(rest)) == None;
  }

  lemma {:induction false} SplitFirst(key: string, rest: string)
    requires '.' !in key
    ensures Split(key + "." + rest) == [key] + Split(rest)
  {
    var path := key + "." + rest;
    if key == "" {
      assert path[0] == '.' && path[1..] == rest;
    } else {
      assert path[1..] == key[1..] + "." + rest && path[0] == key[0] && key == [key[0]] + key[1..];
      SplitFirst(key[1..], rest);
      assert ([key[1..]] + Split(rest))[1..] == Split(rest);
    }
  }

  /** At a place below an object's key stands what stands below its value; below anything
      else nothing does. */
  lemma {:induction false} AtMeans(tree: Json, key: string, below: Place)
    ensures At(tree, []) == Some(tree)
    ensures At(tree, [key] + below) == if tree.Obj? && key in tree.fields then At(tree.fields[key], below) else None
  {
    assert ([key] + below)[1..] == below;
  }
}
