/** What a successful YAML read is bounded by, however many aliases it copies:
    its size in nodes, and how deep its events nest
    (src/domain/yaml.rs:29-33, 74-81, 107-185). */
module YamlBounds {
  import opened Json
  import opened Yaml

  // ----- size -----

  /** Every remembered size is the node count of the remembered value. */
  ghost predicate Sized(s: State<Json>) {
    forall id | id in s.anchors :: s.anchors[id].size == Nodes(s.anchors[id].value)
  }

  /** Copies are within the budget of the events read so far. */
  predicate WithinBudget(s: State<Json>) {
    s.copied <= AliasBudget(s.pos)
  }

  /** What was read costs no more than the events read and the nodes copied. */
  ghost predicate PaidFor(from: State<Json>, gained: int, to: State<Json>) {
    && Sized(to) && WithinBudget(to)
    && from.pos <= to.pos && gained + from.pos + from.copied <= to.pos + to.copied
  }

  lemma BudgetGrows(s: State<Json>, pos: nat)
    requires WithinBudget(s) && s.pos <= pos
    ensures WithinBudget(s.(pos := pos))
  {
  }

  lemma {:induction false} NodeIsSized(env: Env, s: State<Json>, event: Event, depth: nat)
    requires s.pos <= |env.input| && Sized(s) && WithinBudget(s)
    requires ReadNode(env, s, event, depth).Ok?
    ensures var read := ReadNode(env, s, event, depth).value;
            read.size == Nodes(read.value) && PaidFor(s, read.size - 1, read.after)
    decreases |env.input| - s.pos, 1
  {
    hide ReadItems, ReadEntries;
    NodesOfEmpty(map[]);
    match event {
      case SequenceStart(_) => ItemsAreSized(env, s, depth, [], 1);
      case MappingStart(_) =>
        EntriesAreSized(env, s, depth, map[], 1);
      case _ =>
    }
  }

  lemma {:induction false} ItemsAreSized(env: Env, s: State<Json>, depth: nat, items: seq<Json>, size: nat)
    requires s.pos <= |env.input| && Sized(s) && WithinBudget(s)
    requires size == Nodes(Arr(items))
    requires ReadItems(env, s, depth, items, size).Ok?
    ensures var read := ReadItems(env, s, depth, items, size).value;
            read.size == Nodes(read.value) && PaidFor(s, read.size - size, read.after)
    decreases |env.input| - s.pos, 0
  {
    hide ReadNode, ReadEntries, Nodes, AliasBudget, KeyOf;
    var event := NextEvent(env, s).value;
    BudgetGrows(s, s.pos + 1);
    if !event.SequenceEnd? {
      NodeIsSized(env, Advanced(s), event, depth + 1);
      var item := ReadNode(env, Advanced(s), event, depth + 1).value;
      NodesAppend(items, item.value);
      ItemsAreSized(env, item.after, depth, items + [item.value], size + item.size);
    }
  }

  lemma {:induction false} EntriesAreSized(env: Env, s: State<Json>, depth: nat, fields: map<string, Json>, size: nat)
    requires s.pos <= |env.input| && Sized(s) && WithinBudget(s)
    requires size == Nodes(Obj(fields))
    requires ReadEntries(env, s, depth, fields, size).Ok?
    ensures var read := ReadEntries(env, s, depth, fields, size).value;
            read.size == Nodes(read.value) && PaidFor(s, read.size - size, read.after)
    decreases |env.input| - s.pos, 0
  {
    hide ReadNode, ReadItems, Nodes, AliasBudget, KeyOf;
    var first := NextEvent(env, s).value;
    BudgetGrows(s, s.pos + 1);
    if !first.MappingEnd? {
      var key := KeyOf(env, s.anchors, first).value;
      var event := NextEvent(env, Advanced(s)).value;
      BudgetGrows(s, s.pos + 2);
      NodeIsSized(env, Advanced(Advanced(s)), event, depth + 1);
      var entry := ReadNode(env, Advanced(Advanced(s)), event, depth + 1).value;
      NodesInsert(fields, key, entry.value);
      EntriesAreSized(env, entry.after, depth, fields[key := entry.value], size + entry.size);
    }
  }

  ghost predicate StreamSoFar(s: State<Json>, value: Json) {
    Sized(s) && WithinBudget(s) && Nodes(value) <= 1 + s.pos + s.copied
  }

  lemma {:induction false} StreamIsSized(env: Env, s: State<Json>, value: Json, documents: nat)
    requires s.pos <= |env.input| && StreamSoFar(s, value)
    requires documents == 0 ==> s.copied == 0 && value == Null
    requires ReadStream(env, s, value, documents).Ok?
    ensures var read := ReadStream(env, s, value, documents).value;
            Nodes(read.value) <= read.after.pos + read.after.copied && WithinBudget(read.after)
    decreases |env.input| - s.pos
  {
    hide ReadNode, AliasBudget;
    var event := NextEvent(env, s).value;
    BudgetGrows(s, s.pos + 1);
    if event.DocumentStart? {
      var root := NextEvent(env, Advanced(s)).value;
      var begun := Advanced(Advanced(s));
      BudgetGrows(s, s.pos + 2);
      NodeIsSized(env, begun, root, 0);
      var read := ReadNode(env, begun, root, 0).value;
      StreamIsSized(env, read.after, read.value, documents + 1);
    } else if !event.StreamEnd? {
      StreamIsSized(env, Advanced(s), value, documents);
    }
  }

  /** A successful read of n events yields at most n + max(1,000,000, 100 n) nodes. */
  lemma ReadIsBounded(env: Env)
    requires ReadAll(env).Ok?
    ensures var read := ReadAll(env).value;
            && Nodes(read.value) <= read.after.pos + (if 100 * read.after.pos > 1_000_000 then 100 * read.after.pos else 1_000_000)
            && read.after.pos <= |env.input|
  {
    StreamIsSized(env, START, Null, 0);
    StreamEndsInside(env, START, Null, 0);
  }

  lemma {:induction false} StreamEndsInside(env: Env, s: State<Json>, value: Json, documents: nat)
    requires s.pos <= |env.input|
    requires ReadStream(env, s, value, documents).Ok?
    ensures s.pos <= ReadStream(env, s, value, documents).value.after.pos <= |env.input|
    decreases |env.input| - s.pos
  {
    hide ReadNode;
    if NextEvent(env, s).value.DocumentStart? {
      var root := NextEvent(env, Advanced(s)).value;
      var read := ReadNode(env, Advanced(Advanced(s)), root, 0).value;
      StreamEndsInside(env, read.after, read.value, documents + 1);
    } else if !NextEvent(env, s).value.StreamEnd? {
      StreamEndsInside(env, Advanced(s), value, documents);
    }
  }

  // ----- nesting -----

  datatype Frame = InSequence | AtKey | AtValue

  /** The collections open at some event, outermost first. */
  type Nesting = seq<Frame>

  /** A node was completed inside the innermost collection. */
  function Filled(open: Nesting): (r: Nesting)
    ensures |r| == |open|
  {
    if open == [] then []
    else
      var n := |open| - 1;
      match open[n]
      case InSequence => open
      case AtKey => open[..n] + [AtValue]
      case AtValue => open[..n] + [AtKey]
  }

  function Step(open: Nesting, event: Event): Nesting {
    match event
    case Alias(_) => Filled(open)
    case Scalar(_, _, _, _) => Filled(open)
    case SequenceStart(_) => open + [InSequence]
    case MappingStart(_) => open + [AtKey]
    case SequenceEnd => if open == [] then [] else Filled(open[..|open| - 1])
    case MappingEnd => if open == [] then [] else Filled(open[..|open| - 1])
    case _ => open
  }

  /** What is open before event k. */
  function OpenAt(input: seq<Event>, k: nat): Nesting
    requires k <= |input|
  {
    if k == 0 then [] else Step(OpenAt(input, k - 1), input[k - 1])
  }

  predicate Shallow(input: seq<Event>, from: nat, to: nat) {
    forall k: nat | from <= k <= to <= |input| :: |OpenAt(input, k)| <= MAX_DEPTH + 1
  }

  lemma ShallowJoin(input: seq<Event>, from: nat, middle: nat, to: nat)
    requires from <= middle <= to <= |input|
    requires Shallow(input, from, middle) && Shallow(input, middle, to)
    ensures Shallow(input, from, to)
  {
  }

  /** The next event, and the place it leads to. */
  lemma OneEvent(input: seq<Event>, k: nat)
    requires k < |input| && |OpenAt(input, k)| <= MAX_DEPTH + 1
    ensures OpenAt(input, k + 1) == Step(OpenAt(input, k), input[k])
    ensures Shallow(input, k, k)
    ensures |OpenAt(input, k + 1)| <= MAX_DEPTH + 1 ==> Shallow(input, k, k + 1) && Shallow(input, k + 1, k + 1)
  {
  }

  /** A node just begun by the event before `s`, inside `open`. */
  ghost predicate Begun(env: Env, s: State<Json>, event: Event, open: Nesting) {
    0 < s.pos <= |env.input| && env.input[s.pos - 1] == event && OpenAt(env.input, s.pos - 1) == open
  }

  ghost predicate Closed(env: Env, open: Nesting, from: nat, to: nat) {
    from <= to <= |env.input| && OpenAt(env.input, to) == Filled(open) && Shallow(env.input, from, to)
  }

  /** Reading one node completes one node, at most so deep. */
  lemma {:induction false} NodeNests(env: Env, s: State<Json>, event: Event, open: Nesting)
    requires Begun(env, s, event, open)
    requires ReadNode(env, s, event, |open|).Ok?
    ensures Closed(env, open, s.pos, ReadNode(env, s, event, |open|).value.after.pos)
    decreases |env.input| - s.pos, 1
  {
    hide ReadItems, ReadEntries, OpenAt, Shallow;
    OneEvent(env.input, s.pos - 1);
    match event {
      case SequenceStart(_) => ItemsNest(env, s, open, [], 1);
      case MappingStart(_) => EntriesNest(env, s, open, map[], 1);
      case _ =>
    }
  }

  lemma {:induction false} ItemsNest(env: Env, s: State<Json>, outer: Nesting, items: seq<Json>, size: nat)
    requires s.pos <= |env.input| && |outer| <= MAX_DEPTH
    requires OpenAt(env.input, s.pos) == outer + [InSequence]
    requires ReadItems(env, s, |outer|, items, size).Ok?
    ensures Closed(env, outer, s.pos, ReadItems(env, s, |outer|, items, size).value.after.pos)
    decreases |env.input| - s.pos, 0
  {
    hide ReadNode, ReadEntries, OpenAt, Shallow;
    var open := outer + [InSequence];
    var event := NextEvent(env, s).value;
    OneEvent(env.input, s.pos);
    if event.SequenceEnd? {
      assert open[..|open| - 1] == outer;
    } else {
      NodeNests(env, Advanced(s), event, open);
      var item := ReadNode(env, Advanced(s), event, |outer| + 1).value;
      OneEvent(env.input, s.pos);
      ItemsNest(env, item.after, outer, items + [item.value], size + item.size);
      StepThenRest(env, outer, s.pos, item.after.pos, ReadItems(env, s, |outer|, items, size).value.after.pos, open);
    }
  }

  /** From `from`, where `open` is open, a node is read from the next event on, and
      then the rest. */
  lemma StepThenRest(env: Env, outer: Nesting, from: nat, middle: nat, to: nat, open: Nesting)
    requires from + 1 <= |env.input| && OpenAt(env.input, from) == open && |open| <= MAX_DEPTH + 1
    requires Closed(env, open, from + 1, middle) && Closed(env, outer, middle, to)
    ensures Closed(env, outer, from, to)
  {
    hide OpenAt;
    forall k: nat | from <= k <= to
      ensures |OpenAt(env.input, k)| <= MAX_DEPTH + 1
    {
      if from < k <= middle {
        assert Shallow(env.input, from + 1, middle);
      }
    }
  }

  lemma KeyThenValue(input: seq<Event>, k: nat, outer: Nesting)
    requires k < |input| && OpenAt(input, k) == outer + [AtKey] && (input[k].Scalar? || input[k].Alias?)
    ensures OpenAt(input, k + 1) == outer + [AtValue]
    ensures Filled(outer + [AtValue]) == outer + [AtKey]
  {
    assert (outer + [AtKey])[..|outer|] == outer;
    assert (outer + [AtValue])[..|outer|] == outer;
  }

  /** The reader is at a readable event that does not end the mapping, its key is
      read, and so is the value's first event. */
  ghost predicate AtEntry(env: Env, s: State<Json>) {
    && s.pos + 1 < |env.input| && !env.input[s.pos].Failure? && !env.input[s.pos].MappingEnd?
    && KeyOf(env, s.anchors, env.input[s.pos]).Ok? && !env.input[s.pos + 1].Failure?
  }

  ghost function EntryNode(env: Env, s: State<Json>, depth: nat): JsonRead
    requires AtEntry(env, s)
  {
    ReadNode(env, Advanced(Advanced(s)), env.input[s.pos + 1], depth + 1)
  }

  lemma EntriesUnfold(env: Env, s: State<Json>, depth: nat, fields: map<string, Json>, size: nat)
    requires s.pos <= |env.input|
    ensures var r := ReadEntries(env, s, depth, fields, size);
            if AtEntry(env, s) then
              var key := KeyOf(env, s.anchors, env.input[s.pos]).value;
              match EntryNode(env, s, depth)
              case Err(e) => r == Err(e)
              case Ok(entry) =>
                if key in fields then r == Err(DuplicateKey(key))
                else r == ReadEntries(env, entry.after, depth, fields[key := entry.value], size + entry.size)
            else if NextEvent(env, s).Err? then r == Err(NextEvent(env, s).error)
            else if env.input[s.pos].MappingEnd? then r == Ok(Read(Obj(fields), size, Advanced(s)))
            else if KeyOf(env, s.anchors, env.input[s.pos]).Err? then
              r == Err(KeyOf(env, s.anchors, env.input[s.pos]).error)
            else NextEvent(env, Advanced(s)).Err? && r == Err(NextEvent(env, Advanced(s)).error)
  {
    hide ReadNode, KeyOf;
  }

  lemma {:induction false} EntriesNest(env: Env, s: State<Json>, outer: Nesting, fields: map<string, Json>, size: nat)
    requires s.pos <= |env.input| && |outer| <= MAX_DEPTH
    requires OpenAt(env.input, s.pos) == outer + [AtKey]
    requires ReadEntries(env, s, |outer|, fields, size).Ok?
    ensures Closed(env, outer, s.pos, ReadEntries(env, s, |outer|, fields, size).value.after.pos)
    decreases |env.input| - s.pos, 0
  {
    hide ReadNode, ReadItems, ReadEntries, KeyOf, OpenAt, Shallow;
    EntriesUnfold(env, s, |outer|, fields, size);
    OneEvent(env.input, s.pos);
    if AtEntry(env, s) {
      var key := KeyOf(env, s.anchors, env.input[s.pos]).value;
      KeyIsAScalar(env, s.anchors, env.input[s.pos]);
      KeyThenValue(env.input, s.pos, outer);
      NodeNests(env, Advanced(Advanced(s)), env.input[s.pos + 1], outer + [AtValue]);
      var entry := EntryNode(env, s, |outer|).value;
      EntriesNest(env, entry.after, outer, fields[key := entry.value], size + entry.size);
      StepThenRest(env, outer, s.pos + 1, entry.after.pos,
                   ReadEntries(env, s, |outer|, fields, size).value.after.pos, outer + [AtValue]);
      ShallowJoin(env.input, s.pos, s.pos + 1, ReadEntries(env, s, |outer|, fields, size).value.after.pos);
    } else {
      assert (outer + [AtKey])[..|outer|] == outer;
    }
  }

  lemma KeyIsAScalar(env: Env, anchors: map<nat, Anchored<Json>>, event: Event)
    requires KeyOf(env, anchors, event).Ok?
    ensures event.Scalar? || event.Alias?
  {
  }

  lemma {:induction false} StreamNests(env: Env, s: State<Json>, value: Json, documents: nat)
    requires s.pos <= |env.input| && OpenAt(env.input, s.pos) == []
    requires ReadStream(env, s, value, documents).Ok?
    ensures var end := ReadStream(env, s, value, documents).value.after.pos;
            s.pos <= end <= |env.input| && Shallow(env.input, s.pos, end)
    decreases |env.input| - s.pos
  {
    hide ReadNode;
    if NextEvent(env, s).value.DocumentStart? {
      var root := NextEvent(env, Advanced(s)).value;
      var begun := Advanced(Advanced(s));
      assert OpenAt(env.input, s.pos + 1) == [];
      NodeNests(env, begun, root, []);
      var read := ReadNode(env, begun, root, 0).value;
      StreamNests(env, read.after, read.value, documents + 1);
    } else if !NextEvent(env, s).value.StreamEnd? {
      StreamNests(env, Advanced(s), value, documents);
    }
  }

  /** The events of a successful read nest no deeper than the limit allows. */
  lemma ReadIsShallow(env: Env)
    requires ReadAll(env).Ok?
    ensures var end := ReadAll(env).value.after.pos;
            end <= |env.input| && forall k: nat | k <= end :: |OpenAt(env.input, k)| <= 129
  {
    StreamNests(env, START, Null, 0);
  }

  // ----- neither sooner nor later -----

  /** An alias is copied, at the price of its size, exactly while its anchor is known and
      the copies stay within the greater of a million and a hundred per event read; the
      place is not too deep up to 128 levels. */
  lemma {:induction false} AliasIsCopiedIff(env: Env, s: State<Json>, id: nat, depth: nat)
    ensures var r := ReadNode(env, s, Alias(id), depth);
            && (r.Ok? <==>
                  && depth <= 128 && id in s.anchors
                  && (s.copied + s.anchors[id].size <= 1_000_000 || s.copied + s.anchors[id].size <= 100 * s.pos))
            && (r.Ok? ==>
                  && r.value.value == s.anchors[id].value && r.value.size == s.anchors[id].size
                  && r.value.after == s.(copied := s.copied + s.anchors[id].size))
            && (depth > 128 ==> r == Err(TooDeep))
            && (depth <= 128 && id !in s.anchors ==> r == Err(UnknownAnchor))
            && (depth <= 128 && id in s.anchors && r.Err? ==> r == Err(TooManyCopies))
  {
  }

  function AnchorOf(event: Event): nat {
    match event
    case Scalar(_, _, anchor, _) => anchor
    case SequenceStart(anchor) => anchor
    case MappingStart(anchor) => anchor
    case _ => 0
  }

  /** A node with an anchor is remembered under it, with its size; a scalar adds nothing
      else. */
  lemma {:induction false} AnchorsAreRemembered(env: Env, s: State<Json>, event: Event, depth: nat)
    requires ReadNode(env, s, event, depth).Ok?
    ensures var read := ReadNode(env, s, event, depth).value;
            && (AnchorOf(event) != 0 ==>
                  AnchorOf(event) in read.after.anchors
                  && read.after.anchors[AnchorOf(event)] == Anchored(read.value, read.size))
            && (event.Scalar? ==> forall id | id != AnchorOf(event) || id == 0 ::
                  (id in read.after.anchors <==> id in s.anchors)
                  && (id in s.anchors ==> read.after.anchors[id] == s.anchors[id]))
  {
    hide ReadItems, ReadEntries, LeafValue;
  }

  /** A second document is refused, and nothing but documents stands outside them. */
  lemma {:induction false} OneDocumentOnly(env: Env, s: State<Json>, value: Json, documents: nat)
    requires s.pos < |env.input|
    ensures env.input[s.pos].DocumentStart? && documents > 0 ==> ReadStream(env, s, value, documents) == Err(SecondDocument)
    ensures (var event := env.input[s.pos]; event.Scalar? || event.Alias? || event.SequenceStart? || event.MappingStart?) ==>
              ReadStream(env, s, value, documents) == Err(OutsideDocument)
  {
    hide ReadNode;
  }

  /** An aliased key is the anchored scalar's text; a collection is no key. */
  lemma {:induction false} KeysOfAliases(env: Env, anchors: map<nat, Anchored<Json>>, id: nat)
    ensures KeyOf(env, anchors, Alias(id)) ==
            if id !in anchors || anchors[id].value.Arr? || anchors[id].value.Obj? then Err(KeyNotScalar)
            else if anchors[id].value.Str? then Ok(anchors[id].value.text)
            else Ok(env.jsonText(anchors[id].value))
  {
  }
}
