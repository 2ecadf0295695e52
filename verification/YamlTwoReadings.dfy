/** The typed and the verbatim reading of one document: two images of one tree of
    its scalars (src/domain/yaml.rs:37-61, 107-185). */
module YamlTwoReadings {
  import opened Json
  import opened Yaml
  import opened YamlBounds

  /** A document as its events have it: which scalar stands where. A leaf is the
      position of its own event; an alias has the leaves of what it copies. */
  datatype Source = Leaf(k: nat) | Many(items: seq<Source>) | Dict(fields: map<string, Source>)

  type SourceRead = Result<Read<Source>, Error>

  // ----- the two images -----

  predicate IsScalar(env: Env, k: nat) {
    k < |env.input| && env.input[k].Scalar?
  }

  function LeafImage(env: Env, k: nat): Json {
    if IsScalar(env, k) then LeafValue(env, env.input[k].text, env.input[k].style, env.input[k].tag) else Null
  }

  /** The tree as this reader sees it: the same shape, each scalar read its way. */
  function Image(env: Env, source: Source): Json {
    match source
    case Leaf(k) => LeafImage(env, k)
    case Many(items) => Arr(seq(|items|, i requires 0 <= i < |items| => Image(env, items[i])))
    case Dict(fields) => Obj(map k | k in fields :: Image(env, fields[k]))
  }

  /** Every leaf is a scalar of the document. */
  predicate OfScalars(env: Env, source: Source) {
    match source
    case Leaf(k) => IsScalar(env, k)
    case Many(items) => forall i | 0 <= i < |items| :: OfScalars(env, items[i])
    case Dict(fields) => forall k | k in fields :: OfScalars(env, fields[k])
  }

  /** What differs between the two images, leaf by leaf: the text one has a number's
      or a boolean's own source text, and everything else as typed. */
  lemma {:induction false} LeavesDiffer(a: Env, b: Env, k: nat)
    requires Twins(a, b) && IsScalar(a, k)
    ensures LeafImage(a, k) == ScalarValue(a, a.input[k].text, a.input[k].style, a.input[k].tag)
    ensures LeafImage(b, k) == if LeafImage(a, k).Num? || LeafImage(a, k).Bool? then Str(a.input[k].text) else LeafImage(a, k)
  {
    var e := a.input[k];
    assert ScalarValue(b, e.text, e.style, e.tag) == ScalarValue(a, e.text, e.style, e.tag);
  }

  // ----- the tree of a document -----

  /** The text that a scalar makes as a key. */
  function KeyText(env: Env, value: Json): string {
    if value.Str? then value.text else env.jsonText(value)
  }

  /** The same document read both ways. */
  ghost predicate Twins(a: Env, b: Env) {
    !a.verbatim && b == a.(verbatim := true)
  }

  /** An alias for a key makes one text in both readings, or is ambiguous. */
  function SettledKey(a: Env, k: nat): Result<string, Error> {
    var typed := KeyText(a, LeafImage(a, k));
    if typed == KeyText(a, LeafImage(a.(verbatim := true), k)) then Ok(typed) else Err(AmbiguousKey(typed))
  }

  function SourceKey(a: Env, anchors: map<nat, Anchored<Source>>, event: Event): Result<string, Error> {
    match event
    case Scalar(text, _, _, _) => Ok(text)
    case Alias(id) =>
      if id in anchors && anchors[id].value.Leaf? then SettledKey(a, anchors[id].value.k) else Err(KeyNotScalar)
    case _ => Err(KeyNotScalar)
  }

  /** One pass over the events gives the tree, or says why there is none. */
  function SourceNode(a: Env, s: State<Source>, event: Event, depth: nat): (r: SourceRead)
    ensures r.Ok? && s.pos <= |a.input| ==> s.pos <= r.value.after.pos <= |a.input|
    decreases if s.pos <= |a.input| then |a.input| - s.pos else 0, 1
  {
    if depth > MAX_DEPTH then Err(TooDeep)
    else
      match event
      case Alias(id) => CopyAnchor(s, id)
      case Scalar(text, style, anchor, tag) =>
        if IsVault(tag) then Err(Encrypted)
        else Finished(Ok(Read(Leaf(if s.pos > 0 then s.pos - 1 else 0), 1, s)), anchor)
      case SequenceStart(anchor) => Finished(SourceItems(a, s, depth, [], 1), anchor)
      case MappingStart(anchor) => Finished(SourceEntries(a, s, depth, map[], 1), anchor)
      case _ => Err(UnexpectedEvent)
  }

  function SourceItems(a: Env, s: State<Source>, depth: nat, items: seq<Source>, size: nat): (r: SourceRead)
    ensures r.Ok? && s.pos <= |a.input| ==> s.pos <= r.value.after.pos <= |a.input|
    decreases if s.pos <= |a.input| then |a.input| - s.pos else 0, 0
  {
    match NextEvent(a, s)
    case Err(e) => Err(e)
    case Ok(event) =>
      if event.SequenceEnd? then Ok(Read(Many(items), size, Advanced(s)))
      else
        match SourceNode(a, Advanced(s), event, depth + 1)
        case Err(e) => Err(e)
        case Ok(item) => SourceItems(a, item.after, depth, items + [item.value], size + item.size)
  }

  function SourceEntries(a: Env, s: State<Source>, depth: nat, fields: map<string, Source>, size: nat): (r: SourceRead)
    ensures r.Ok? && s.pos <= |a.input| ==> s.pos <= r.value.after.pos <= |a.input|
    decreases if s.pos <= |a.input| then |a.input| - s.pos else 0, 0
  {
    match NextEvent(a, s)
    case Err(e) => Err(e)
    case Ok(first) =>
      if first.MappingEnd? then Ok(Read(Dict(fields), size, Advanced(s)))
      else
        match SourceKey(a, s.anchors, first)
        case Err(e) => Err(e)
        case Ok(key) =>
          match NextEvent(a, Advanced(s))
          case Err(e) => Err(e)
          case Ok(event) =>
            match SourceNode(a, Advanced(Advanced(s)), event, depth + 1)
            case Err(e) => Err(e)
            case Ok(entry) =>
              if key in fields then Err(DuplicateKey(key))
              else SourceEntries(a, entry.after, depth, fields[key := entry.value], size + entry.size)
  }

  /** The tree of the one document; none for an empty stream. */
  function SourceStream(a: Env, s: State<Source>, tree: Option<Source>): Result<Option<Source>, Error>
    decreases if s.pos <= |a.input| then |a.input| - s.pos else 0
  {
    match NextEvent(a, s)
    case Err(e) => Err(e)
    case Ok(event) =>
      match event
      case StreamStart => SourceStream(a, Advanced(s), tree)
      case DocumentEnd => SourceStream(a, Advanced(s), tree)
      case StreamEnd => Ok(tree)
      case DocumentStart =>
        if tree.Some? then Err(SecondDocument)
        else
          (match NextEvent(a, Advanced(s))
           case Err(e) => Err(e)
           case Ok(root) =>
             match SourceNode(a, Advanced(Advanced(s)), root, 0)
             case Err(e) => Err(e)
             case Ok(read) => SourceStream(a, read.after, Some(read.value)))
      case _ => Err(OutsideDocument)
  }

  function ReadSource(a: Env): Result<Option<Source>, Error> {
    SourceStream(a, State(0, map[], 0), None)
  }

  function TreeImage(env: Env, tree: Option<Source>): Json {
    match tree
    case None => Null
    case Some(source) => Image(env, source)
  }

  // ----- each reading is an image of the tree -----

  /** A reader of the document `a` is of, in either way. */
  ghost predicate Reads(a: Env, e: Env) {
    !a.verbatim && (e == a || e == a.(verbatim := true))
  }

  /** The reader stands where the tree does, and remembers the images. */
  ghost predicate InStep(e: Env, s: State<Source>, t: State<Json>) {
    && s.pos == t.pos <= |e.input| && s.copied == t.copied
    && s.anchors.Keys == t.anchors.Keys
    && forall id | id in s.anchors ::
         && t.anchors[id] == Anchored(Image(e, s.anchors[id].value), s.anchors[id].size)
         && OfScalars(e, s.anchors[id].value)
  }

  ghost predicate IsImage(e: Env, r: SourceRead, q: JsonRead) {
    match r
    case Err(AmbiguousKey(_)) => true
    case Err(error) => q == Err(error)
    case Ok(read) =>
      && q.Ok? && q.value.value == Image(e, read.value) && q.value.size == read.size
      && OfScalars(e, read.value) && InStep(e, read.after, q.value.after)
  }

  lemma {:induction false} NextInStep(a: Env, e: Env, s: State<Source>, t: State<Json>)
    requires Reads(a, e) && InStep(e, s, t)
    ensures e.input == a.input && s.pos == t.pos <= |a.input|
    ensures NextEvent(a, s) == NextEvent(e, t)
    ensures s.pos < |a.input| ==> InStep(e, Advanced(s), Advanced(t))
  {
    hide Image, OfScalars;
  }

  lemma {:induction false} FinishedImage(e: Env, r: SourceRead, q: JsonRead, anchor: nat)
    requires IsImage(e, r, q)
    ensures IsImage(e, Finished(r, anchor), Finished(q, anchor))
  {
    hide Image, OfScalars;
  }

  lemma {:induction false} EmptyImages(e: Env)
    ensures Image(e, Many([])) == Arr([]) && Image(e, Dict(map[])) == Obj(map[])
    ensures OfScalars(e, Many([])) && OfScalars(e, Dict(map[]))
  {
    var none: map<string, Source> := map[];
    assert Image(e, Dict(none)).fields.Keys == {};
  }

  lemma {:induction false} OneMoreItem(e: Env, items: seq<Source>, item: Source)
    requires OfScalars(e, Many(items)) && OfScalars(e, item)
    ensures OfScalars(e, Many(items + [item]))
    ensures Image(e, Many(items + [item])) == Arr(Image(e, Many(items)).items + [Image(e, item)])
  {
  }

  lemma {:induction false} OneMoreField(e: Env, fields: map<string, Source>, key: string, item: Source)
    requires OfScalars(e, Dict(fields)) && OfScalars(e, item)
    ensures OfScalars(e, Dict(fields[key := item]))
    ensures Image(e, Dict(fields[key := item])) == Obj(Image(e, Dict(fields)).fields[key := Image(e, item)])
    ensures Image(e, Dict(fields)).fields.Keys == fields.Keys
  {
    assert Image(e, Dict(fields[key := item])).fields == Image(e, Dict(fields)).fields[key := Image(e, item)];
  }

  lemma {:induction false} NodeIsImage(a: Env, e: Env, s: State<Source>, t: State<Json>, event: Event, depth: nat)
    requires Reads(a, e) && InStep(e, s, t)
    requires 0 < s.pos && a.input[s.pos - 1] == event
    ensures IsImage(e, SourceNode(a, s, event, depth), ReadNode(e, t, event, depth))
    decreases |a.input| - s.pos, 1
  {
    hide SourceItems, SourceEntries, ReadItems, ReadEntries, LeafValue;
    if depth <= MAX_DEPTH {
      match event {
        case Scalar(text, style, anchor, tag) =>
          FinishedImage(e, Ok(Read(Leaf(s.pos - 1), 1, s)), Ok(Read(LeafValue(e, text, style, tag), 1, t)), anchor);
        case SequenceStart(anchor) =>
          EmptyImages(e);
          ItemsAreImage(a, e, s, t, depth, [], 1);
          FinishedImage(e, SourceItems(a, s, depth, [], 1), ReadItems(e, t, depth, [], 1), anchor);
        case MappingStart(anchor) =>
          EmptyImages(e);
          EntriesAreImage(a, e, s, t, depth, map[], 1);
          FinishedImage(e, SourceEntries(a, s, depth, map[], 1), ReadEntries(e, t, depth, map[], 1), anchor);
        case _ =>
      }
    }
  }

  lemma {:induction false} ItemsAreImage(a: Env, e: Env, s: State<Source>, t: State<Json>, depth: nat, items: seq<Source>, size: nat)
    requires Reads(a, e) && InStep(e, s, t) && OfScalars(e, Many(items))
    ensures IsImage(e, SourceItems(a, s, depth, items, size), ReadItems(e, t, depth, Image(e, Many(items)).items, size))
    decreases |a.input| - s.pos, 0
  {
    hide SourceNode, SourceEntries, ReadNode, ReadEntries, InStep, Reads, Image, OfScalars;
    NextInStep(a, e, s, t);
    ImageOfMany(e, items);
    if s.pos < |a.input| && !a.input[s.pos].Failure? && !a.input[s.pos].SequenceEnd? {
      var event := a.input[s.pos];
      NodeIsImage(a, e, Advanced(s), Advanced(t), event, depth + 1);
      var r, q := SourceNode(a, Advanced(s), event, depth + 1), ReadNode(e, Advanced(t), event, depth + 1);
      if r.Ok? {
        OneMoreItem(e, items, r.value.value);
        ItemsAreImage(a, e, r.value.after, q.value.after, depth, items + [r.value.value], size + r.value.size);
      }
    }
  }

  lemma {:induction false} ImageOfMany(e: Env, items: seq<Source>)
    ensures Image(e, Many(items)).Arr?
  {
  }

  lemma {:induction false} ImageOfDict(e: Env, fields: map<string, Source>)
    ensures Image(e, Dict(fields)).Obj? && Image(e, Dict(fields)).fields.Keys == fields.Keys
  {
  }

  /** A key that is not ambiguous is the same for the reader. */
  lemma {:induction false} KeyInStep(a: Env, e: Env, s: State<Source>, t: State<Json>, event: Event)
    requires Reads(a, e) && InStep(e, s, t)
    ensures var key := SourceKey(a, s.anchors, event);
            (key.Err? && key.error.AmbiguousKey?) || KeyOf(e, t.anchors, event) == key
  {
    hide OfScalars, LeafImage;
    if event.Alias? && event.id in s.anchors && s.anchors[event.id].value.Leaf? {
      LeavesAreFlat(a, e, s.anchors[event.id].value.k);
    }
  }

  lemma {:induction false} LeavesAreFlat(a: Env, e: Env, k: nat)
    requires Reads(a, e)
    ensures !LeafImage(e, k).Arr? && !LeafImage(e, k).Obj?
    ensures LeafImage(e, k) == if e.verbatim then LeafImage(a.(verbatim := true), k) else LeafImage(a, k)
  {
  }

  lemma {:induction false} EntriesAreImage(a: Env, e: Env, s: State<Source>, t: State<Json>, depth: nat,
                                           fields: map<string, Source>, size: nat)
    requires Reads(a, e) && InStep(e, s, t) && OfScalars(e, Dict(fields))
    ensures IsImage(e, SourceEntries(a, s, depth, fields, size), ReadEntries(e, t, depth, Image(e, Dict(fields)).fields, size))
    decreases |a.input| - s.pos, 0
  {
    hide SourceNode, SourceItems, ReadNode, ReadItems, ReadEntries, InStep, Reads, Image, OfScalars, SourceKey, KeyOf;
    NextInStep(a, e, s, t);
    ImageOfDict(e, fields);
    EntriesUnfold(e, t, depth, Image(e, Dict(fields)).fields, size);
    if s.pos < |a.input| {
      KeyInStep(a, e, s, t, a.input[s.pos]);
      NextInStep(a, e, Advanced(s), Advanced(t));
      var key := SourceKey(a, s.anchors, a.input[s.pos]);
      if key.Ok? && AtEntry(e, t) {
        var event := a.input[s.pos + 1];
        var from, twin := Advanced(Advanced(s)), Advanced(Advanced(t));
        NodeIsImage(a, e, from, twin, event, depth + 1);
        var r := SourceNode(a, from, event, depth + 1);
        if r.Ok? && key.value !in fields {
          OneMoreField(e, fields, key.value, r.value.value);
          EntriesAreImage(a, e, r.value.after, EntryNode(e, t, depth).value.after, depth,
                          fields[key.value := r.value.value], size + r.value.size);
        }
      }
    }
  }

  /** The reader is at the start of the first document. */
  ghost predicate AtDocument(env: Env, s: State<Json>, documents: nat) {
    documents == 0 && s.pos + 1 < |env.input| && env.input[s.pos].DocumentStart? && !env.input[s.pos + 1].Failure?
  }

  ghost predicate AtFiller(env: Env, s: State<Json>) {
    s.pos < |env.input| && (env.input[s.pos].StreamStart? || env.input[s.pos].DocumentEnd?)
  }

  lemma StreamUnfold(env: Env, s: State<Json>, value: Json, documents: nat)
    requires s.pos <= |env.input|
    ensures var r := ReadStream(env, s, value, documents);
            if AtDocument(env, s, documents) then
              match ReadNode(env, Advanced(Advanced(s)), env.input[s.pos + 1], 0)
              case Err(e) => r == Err(e)
              case Ok(read) => r == ReadStream(env, read.after, read.value, documents + 1)
            else if AtFiller(env, s) then r == ReadStream(env, Advanced(s), value, documents)
            else if NextEvent(env, s) == Ok(StreamEnd) then r == Ok(Read(value, 0, Advanced(s)))
            else r == Err(if NextEvent(env, s).Err? then NextEvent(env, s).error
                          else if !env.input[s.pos].DocumentStart? then OutsideDocument
                          else if documents > 0 then SecondDocument
                          else NextEvent(env, Advanced(s)).error)
  {
    hide ReadNode;
  }

  ghost predicate StreamIsImage(e: Env, r: Result<Option<Source>, Error>, q: JsonRead) {
    match r
    case Err(AmbiguousKey(_)) => true
    case Err(error) => q == Err(error)
    case Ok(tree) => q.Ok? && q.value.value == TreeImage(e, tree) && (tree.Some? ==> OfScalars(e, tree.value))
  }

  lemma {:induction false} StreamsAreImage(a: Env, e: Env, s: State<Source>, t: State<Json>, tree: Option<Source>)
    requires Reads(a, e) && InStep(e, s, t) && (tree.Some? ==> OfScalars(e, tree.value))
    ensures StreamIsImage(e, SourceStream(a, s, tree), ReadStream(e, t, TreeImage(e, tree), if tree.Some? then 1 else 0))
    decreases |a.input| - s.pos
  {
    hide SourceNode, ReadNode, ReadStream, InStep, Reads, Image, OfScalars;
    NextInStep(a, e, s, t);
    StreamUnfold(e, t, TreeImage(e, tree), if tree.Some? then 1 else 0);
    if s.pos < |a.input| {
      NextInStep(a, e, Advanced(s), Advanced(t));
      if AtFiller(e, t) {
        StreamsAreImage(a, e, Advanced(s), Advanced(t), tree);
      } else if AtDocument(e, t, if tree.Some? then 1 else 0) {
        var root := a.input[s.pos + 1];
        var from, twin := Advanced(Advanced(s)), Advanced(Advanced(t));
        NodeIsImage(a, e, from, twin, root, 0);
        var r := SourceNode(a, from, root, 0);
        if r.Ok? {
          StreamsAreImage(a, e, r.value.after, ReadNode(e, twin, root, 0).value.after, Some(r.value.value));
        }
      }
    }
  }

  /** The reading agrees with itself on what its aliased keys are. */
  predicate KeysAreSettled(a: Env) {
    var source := ReadSource(a);
    source.Ok? || !source.error.AmbiguousKey?
  }

  /** One pass over the events gives one tree of the document's scalars, and both
      readings are images of it: unless an aliased key is ambiguous, they fail with
      the same error, or both succeed, each with every scalar in its own place read
      its own way (see LeavesDiffer). */
  lemma {:induction false} BothReadingsAgree(a: Env, b: Env)
    requires Twins(a, b) && KeysAreSettled(a)
    ensures match ReadSource(a)
            case Err(error) => ReadAll(a) == Err(error) && ReadAll(b) == Err(error)
            case Ok(tree) =>
              && ReadAll(a).Ok? && ReadAll(a).value.value == TreeImage(a, tree)
              && ReadAll(b).Ok? && ReadAll(b).value.value == TreeImage(b, tree)
              && (tree.Some? ==> OfScalars(a, tree.value))
  {
    hide Image, OfScalars;
    StreamsAreImage(a, a, State(0, map[], 0), START, None);
    StreamsAreImage(a, b, State(0, map[], 0), START, None);
  }

  /** Exactly when an alias makes the same key in both readings: its anchor is no
      number or boolean, or the JSON text of that is its source text. */
  lemma {:induction false} AliasedKeyAgreesIff(a: Env, b: Env, s: State<Source>, t: State<Json>, u: State<Json>, id: nat)
    requires Twins(a, b) && InStep(a, s, t) && InStep(b, s, u)
    ensures KeyOf(a, t.anchors, Alias(id)) == KeyOf(b, u.anchors, Alias(id)) <==>
            (id in s.anchors && s.anchors[id].value.Leaf? ==>
               var k := s.anchors[id].value.k;
               var typed := LeafImage(a, k);
               typed.Num? || typed.Bool? ==> a.jsonText(typed) == a.input[k].text)
    ensures SourceKey(a, s.anchors, Alias(id)).Err? && SourceKey(a, s.anchors, Alias(id)).error.AmbiguousKey? <==>
            KeyOf(a, t.anchors, Alias(id)) != KeyOf(b, u.anchors, Alias(id))
  {
    hide LeafImage;
    if id in s.anchors && s.anchors[id].value.Leaf? {
      var k := s.anchors[id].value.k;
      assert OfScalars(a, s.anchors[id].value);
      LeavesDiffer(a, b, k);
      LeavesAreFlat(a, a, k);
      LeavesAreFlat(a, b, k);
    }
  }

  // ----- no alias for a key -----

  /** No alias stands where a mapping expects a key. */
  ghost predicate NoAliasedKeys(input: seq<Event>) {
    forall k: nat | k < |input| && input[k].Alias? ::
      OpenAt(input, k) == [] || OpenAt(input, k)[|OpenAt(input, k)| - 1] != AtKey
  }

  lemma {:induction false} NodeIsSettled(a: Env, s: State<Source>, t: State<Json>, event: Event, open: Nesting)
    requires Reads(a, a) && NoAliasedKeys(a.input) && InStep(a, s, t) && Begun(a, t, event, open)
    ensures var r := SourceNode(a, s, event, |open|); r.Err? ==> !r.error.AmbiguousKey?
    decreases |a.input| - s.pos, 1
  {
    hide SourceItems, SourceEntries, Image, OfScalars, OpenAt, NoAliasedKeys;
    if |open| <= MAX_DEPTH {
      OneEvent(a.input, s.pos - 1);
      match event {
        case SequenceStart(_) =>
          EmptyImages(a);
          ItemsAreSettled(a, s, t, open, [], 1);
        case MappingStart(_) =>
          EmptyImages(a);
          EntriesAreSettled(a, s, t, open, map[], 1);
        case _ =>
      }
    }
  }

  lemma {:induction false} ItemsAreSettled(a: Env, s: State<Source>, t: State<Json>, outer: Nesting, items: seq<Source>, size: nat)
    requires Reads(a, a) && NoAliasedKeys(a.input) && InStep(a, s, t) && |outer| <= MAX_DEPTH
    requires OpenAt(a.input, s.pos) == outer + [InSequence] && OfScalars(a, Many(items))
    ensures var r := SourceItems(a, s, |outer|, items, size); r.Err? ==> !r.error.AmbiguousKey?
    decreases |a.input| - s.pos, 0
  {
    hide SourceNode, SourceEntries, ReadNode, InStep, Reads, Image, OfScalars, OpenAt, NoAliasedKeys, Closed;
    NextInStep(a, a, s, t);
    if s.pos < |a.input| && !a.input[s.pos].Failure? && !a.input[s.pos].SequenceEnd? {
      var event, open := a.input[s.pos], outer + [InSequence];
      NodeIsSettled(a, Advanced(s), Advanced(t), event, open);
      NodeIsImage(a, a, Advanced(s), Advanced(t), event, |open|);
      var r := SourceNode(a, Advanced(s), event, |open|);
      if r.Ok? {
        var after := ReadNode(a, Advanced(t), event, |open|).value.after;
        NodeNests(a, Advanced(t), event, open);
        NodeFilled(a, Advanced(t), event, open);
        OneMoreItem(a, items, r.value.value);
        NextInStep(a, a, r.value.after, after);
        ItemsAreSettled(a, r.value.after, after, outer, items + [r.value.value], size + r.value.size);
      }
    }
  }

  lemma {:induction false} NodeFilled(a: Env, t: State<Json>, event: Event, open: Nesting)
    requires Begun(a, t, event, open) && ReadNode(a, t, event, |open|).Ok?
    ensures ReadNode(a, t, event, |open|).value.after.pos <= |a.input|
    ensures OpenAt(a.input, ReadNode(a, t, event, |open|).value.after.pos) == Filled(open)
  {
    hide ReadNode;
    NodeNests(a, t, event, open);
  }

  lemma {:induction false} EntriesAreSettled(a: Env, s: State<Source>, t: State<Json>, outer: Nesting, fields: map<string, Source>, size: nat)
    requires Reads(a, a) && NoAliasedKeys(a.input) && InStep(a, s, t) && |outer| <= MAX_DEPTH
    requires OpenAt(a.input, s.pos) == outer + [AtKey] && OfScalars(a, Dict(fields))
    ensures var r := SourceEntries(a, s, |outer|, fields, size); r.Err? ==> !r.error.AmbiguousKey?
    decreases |a.input| - s.pos, 0
  {
    hide SourceNode, SourceItems, ReadNode, InStep, Reads, Image, OfScalars, OpenAt, NoAliasedKeys, Closed, SourceKey, Filled;
    NextInStep(a, a, s, t);
    if s.pos < |a.input| {
      KeyIsNoAlias(a, s, outer);
      NextInStep(a, a, Advanced(s), Advanced(t));
      var key := SourceKey(a, s.anchors, a.input[s.pos]);
      if key.Ok? && s.pos + 1 < |a.input| && !a.input[s.pos + 1].Failure? {
        KeyThenValue(a.input, s.pos, outer);
        var event, open := a.input[s.pos + 1], outer + [AtValue];
        var from, twin := Advanced(Advanced(s)), Advanced(Advanced(t));
        NodeIsSettled(a, from, twin, event, open);
        NodeIsImage(a, a, from, twin, event, |open|);
        var r := SourceNode(a, from, event, |open|);
        if r.Ok? && key.value !in fields {
          NodeFilled(a, twin, event, open);
          OneMoreField(a, fields, key.value, r.value.value);
          NextInStep(a, a, r.value.after, ReadNode(a, twin, event, |open|).value.after);
          EntriesAreSettled(a, r.value.after, ReadNode(a, twin, event, |open|).value.after, outer,
                            fields[key.value := r.value.value], size + r.value.size);
        }
      }
    }
  }

  lemma {:induction false} KeyIsNoAlias(a: Env, s: State<Source>, outer: Nesting)
    requires NoAliasedKeys(a.input) && s.pos < |a.input| && OpenAt(a.input, s.pos) == outer + [AtKey]
    ensures var key := SourceKey(a, s.anchors, a.input[s.pos]);
            if key.Ok? then a.input[s.pos].Scalar? else !key.error.AmbiguousKey?
  {
    assert !a.input[s.pos].Alias?;
  }

  lemma {:induction false} StreamIsSettled(a: Env, s: State<Source>, t: State<Json>, tree: Option<Source>)
    requires Reads(a, a) && NoAliasedKeys(a.input) && InStep(a, s, t) && OpenAt(a.input, s.pos) == []
    ensures var r := SourceStream(a, s, tree); r.Err? ==> !r.error.AmbiguousKey?
    decreases |a.input| - s.pos
  {
    hide SourceNode, ReadNode, InStep, Reads, Image, OfScalars, OpenAt, NoAliasedKeys, Closed;
    NextInStep(a, a, s, t);
    if s.pos < |a.input| && !a.input[s.pos].Failure? {
      var event := a.input[s.pos];
      NextInStep(a, a, Advanced(s), Advanced(t));
      OneEvent(a.input, s.pos);
      if event.StreamStart? || event.DocumentEnd? {
        StreamIsSettled(a, Advanced(s), Advanced(t), tree);
      } else if event.DocumentStart? && tree.None? && s.pos + 1 < |a.input| && !a.input[s.pos + 1].Failure? {
        var root := a.input[s.pos + 1];
        var from, twin := Advanced(Advanced(s)), Advanced(Advanced(t));
        NodeIsSettled(a, from, twin, root, []);
        NodeIsImage(a, a, from, twin, root, 0);
        var r := SourceNode(a, from, root, 0);
        if r.Ok? {
          NodeFilled(a, twin, root, []);
          NextInStep(a, a, r.value.after, ReadNode(a, twin, root, 0).value.after);
          StreamIsSettled(a, r.value.after, ReadNode(a, twin, root, 0).value.after, Some(r.value.value));
        }
      }
    }
  }

  /** Where no alias stands for a key, none is ambiguous. */
  lemma {:induction false} WithoutAliasesKeysAreSettled(a: Env)
    requires !a.verbatim && NoAliasedKeys(a.input)
    ensures KeysAreSettled(a)
  {
    StreamIsSettled(a, State(0, map[], 0), START, None);
  }

  // ----- an ambiguous key -----

  /** `{true: &x True, *x: y}` repeats the key `true` when typed, and has keys `true`
      and `True` as text. */
  const ALIASED_KEY: seq<Event> := [
    StreamStart, DocumentStart, MappingStart(0),
    Scalar("true", Plain, 0, None), Scalar("True", Plain, 1, None),
    Alias(1), Scalar("y", QuotedOrBlock, 0, None),
    MappingEnd, DocumentEnd, StreamEnd]

  lemma {:induction false} AliasedKeysMayDisagree(a: Env, b: Env)
    requires a.input == ALIASED_KEY && Twins(a, b)
    requires a.jsonText(Bool(true)) == "true"
    ensures ReadAll(a) == Err(DuplicateKey("true"))
    ensures ReadAll(b).Ok?
  {
    AliasedKeyRoot(a);
    AliasedKeyRoot(b);
  }

  lemma {:induction false} AliasedKeyRoot(env: Env)
    requires env.input == ALIASED_KEY
    requires env.jsonText(Bool(true)) == "true"
    ensures if env.verbatim then ReadAll(env).Ok? else ReadAll(env) == Err(DuplicateKey("true"))
  {
    hide ReadStream, ReadEntries, ReadItems;
    AliasedKeyEntries(env);
    StreamUnfold(env, START, Null, 0);
    StreamUnfold(env, State(1, map[], 0), Null, 0);
    if env.verbatim {
      var value := Obj(map["true" := Str("True"), "True" := Str("y")]);
      var anchors := map[1 := Anchored(Str("True"), 1)];
      StreamUnfold(env, State(8, anchors, 0), value, 1);
      StreamUnfold(env, State(9, anchors, 0), value, 1);
    }
  }

  lemma {:induction false} AliasedKeyScalars(env: Env)
    ensures LeafValue(env, "True", Plain, None) == if env.verbatim then Str("True") else Bool(true)
    ensures LeafValue(env, "y", QuotedOrBlock, None) == Str("y")
  {
    hide IntOf, FloatOf;
  }

  lemma {:induction false} AliasedKeyEntries(env: Env)
    requires env.input == ALIASED_KEY
    requires env.jsonText(Bool(true)) == "true"
    ensures ReadEntries(env, State(3, map[], 0), 0, map[], 1) ==
      if env.verbatim
      then Ok(Read(Obj(map["true" := Str("True"), "True" := Str("y")]), 3, State(8, map[1 := Anchored(Str("True"), 1)], 0)))
      else Err(DuplicateKey("true"))
  {
    hide ReadEntries, ReadItems, LeafValue;
    AliasedKeyScalars(env);
    var value := if env.verbatim then Str("True") else Bool(true);
    var second := State(5, map[1 := Anchored(value, 1)], 0);
    var fields: map<string, Json> := map["true" := value];
    EntriesUnfold(env, State(3, map[], 0), 0, map[], 1);
    EntriesUnfold(env, second, 0, fields, 2);
    if env.verbatim {
      EntriesUnfold(env, State(7, second.anchors, 0), 0, fields["True" := Str("y")], 3);
    }
  }
}
