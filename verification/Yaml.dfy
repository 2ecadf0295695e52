/** YAML to JSON, from the parser's events on (src/domain/yaml.rs:29-262): anchors
    and aliases with their budget, depth, duplicate keys, and the two ways of
    reading a scalar. Reading the digits of a floating-point number, and writing a
    JSON value as text, are parameters. */
module Yaml {
  import opened Json

  const MAX_DEPTH: nat := 128
  const MIN_ALIAS_BUDGET: nat := 1_000_000
  const CORE_TAG := "tag:yaml.org,2002:"

  datatype Tag = Tag(handle: string, suffix: string)

  datatype Style = Plain | QuotedOrBlock

  /** Anchor 0 is no anchor. A parser's failure is an event of its own. */
  datatype Event =
    | StreamStart
    | StreamEnd
    | DocumentStart
    | DocumentEnd
    | Alias(id: nat)
    | Scalar(text: string, style: Style, anchor: nat, tag: Option<Tag>)
    | SequenceStart(anchor: nat)
    | SequenceEnd
    | MappingStart(anchor: nat)
    | MappingEnd
    | Nothing
    | Failure

  datatype Error =
    | Malformed
    | UnexpectedEnd
    | SecondDocument
    | OutsideDocument
    | TooDeep
    | UnknownAnchor
    | TooManyCopies
    | Encrypted
    | KeyNotScalar
    // Never reported by a reader of values: see YamlTwoReadings.
    | AmbiguousKey(key: string)
    | DuplicateKey(key: string)
    | UnexpectedEvent

  /** What a read depends on: the events, whether numbers and booleans stay text,
      the bits of the finite number a text denotes to the float parser (if any),
      and JSON text. */
  datatype Env = Env(
    input: seq<Event>,
    verbatim: bool,
    finite: string -> Option<nat>,
    jsonText: Json -> string)

  datatype Anchored<V> = Anchored(value: V, size: nat)

  /** How far a reader is, what it has met, and how many nodes it has copied. The
      number of events read is the position. The values may be of any kind. */
  datatype State<V> = State(pos: nat, anchors: map<nat, Anchored<V>>, copied: nat)

  datatype Read<V> = Read(value: V, size: nat, after: State<V>)

  type JsonRead = Result<Read<Json>, Error>

  // ----- scalars -----

  predicate StartsWith(text: string, prefix: string) {
    prefix <= text
  }

  predicate Signed(text: string) {
    text != "" && (text[0] == '+' || text[0] == '-')
  }

  function DigitValue(c: char): nat {
    if '0' <= c <= '9' then (c - '0') as nat
    else if 'a' <= c <= 'z' then (c - 'a') as nat + 10
    else if 'A' <= c <= 'Z' then (c - 'A') as nat + 10
    else 99
  }

  const MAX_UNSIGNED: nat := 0xFFFF_FFFF_FFFF_FFFF
  const MAX_NEGATIVE: nat := 0x8000_0000_0000_0000

  function Magnitude(digits: string, radix: nat): nat {
    if digits == "" then 0
    else Magnitude(digits[..|digits| - 1], radix) * radix + DigitValue(digits[|digits| - 1])
  }

  /** Digits of that radix, at least one, within 64 bits. */
  function FromRadix(digits: string, radix: nat): Option<nat> {
    if digits != "" && (forall c | c in digits :: DigitValue(c) < radix) && Magnitude(digits, radix) <= MAX_UNSIGNED
    then Some(Magnitude(digits, radix))
    else None
  }

  /** Leading zeros followed by digits: a string in YAML 1.2. */
  predicate DigitsButNotNumber(text: string) {
    var digits := if Signed(text) then text[1..] else text;
    |digits| > 1 && digits[0] == '0' && forall c | c in digits[1..] :: '0' <= c <= '9'
  }

  function IntOf(text: string): Option<int> {
    var negative := StartsWith(text, "-");
    var unsigned := if Signed(text) then text[1..] else text;
    if Signed(unsigned) then None
    else
      var prefixed := StartsWith(unsigned, "0x") || StartsWith(unsigned, "0o") || StartsWith(unsigned, "0b");
      var radix := if StartsWith(unsigned, "0x") then 16
                   else if StartsWith(unsigned, "0o") then 8
                   else if StartsWith(unsigned, "0b") then 2
                   else 10;
      var digits := if prefixed then unsigned[2..] else unsigned;
      if !prefixed && DigitsButNotNumber(text) then None
      else if Signed(digits) then None
      else
        match FromRadix(digits, radix)
        case None => None
        case Some(magnitude) =>
          WithSign(negative, magnitude)
  }

  /** The smallest 64-bit integer is the one magnitude that fits negated only. */
  function WithSign(negative: bool, magnitude: int): Option<int> {
    if !negative then Some(magnitude)
    else if magnitude <= MAX_NEGATIVE then Some(-magnitude)
    else None
  }

  /** None: no number. Some(None): an infinity or not a number. */
  function FloatOf(finite: string -> Option<nat>, text: string): Option<Option<nat>> {
    var unsigned := if StartsWith(text, "+") then text[1..] else text;
    if Signed(unsigned) && StartsWith(text, "+") then None
    else if unsigned in {".inf", ".Inf", ".INF", "-.inf", "-.Inf", "-.INF", ".nan", ".NaN", ".NAN"} then Some(None)
    else
      match finite(unsigned)
      case None => None
      case Some(bits) => Some(Some(bits))
  }

  function ScalarValue(env: Env, text: string, style: Style, tag: Option<Tag>): Json {
    if tag == Some(Tag(CORE_TAG, "str")) then Str(text)
    else if style != Plain then Str(text)
    else if text in {"", "~", "null", "Null", "NULL"} then Null
    else if text in {"true", "True", "TRUE"} then Bool(true)
    else if text in {"false", "False", "FALSE"} then Bool(false)
    else
      match IntOf(text)
      case Some(n) => Num(Int(n))
      case None =>
        if DigitsButNotNumber(text) then Str(text)
        else
          match FloatOf(env.finite, text)
          case None => Str(text)
          case Some(None) => Null
          case Some(Some(bits)) => Num(Float(bits))
  }

  /** The scalar as this reader wants it. */
  function LeafValue(env: Env, text: string, style: Style, tag: Option<Tag>): Json {
    var value := ScalarValue(env, text, style, tag);
    if env.verbatim && (value.Num? || value.Bool?) then Str(text) else value
  }

  predicate IsVault(tag: Option<Tag>) {
    tag.Some? && tag.value.handle != CORE_TAG && tag.value.suffix == "vault"
  }

  // ----- the reader, as a function of the events -----

  function NextEvent<V>(env: Env, s: State<V>): (r: Result<Event, Error>)
    ensures r.Ok? ==> s.pos < |env.input| && r.value == env.input[s.pos] && !r.value.Failure?
  {
    if s.pos >= |env.input| then Err(UnexpectedEnd)
    else if env.input[s.pos].Failure? then Err(Malformed)
    else Ok(env.input[s.pos])
  }

  function Advanced<V>(s: State<V>): State<V> {
    s.(pos := s.pos + 1)
  }

  function AliasBudget(events: nat): nat {
    if events * 100 > MIN_ALIAS_BUDGET then events * 100 else MIN_ALIAS_BUDGET
  }

  function Remember<V>(s: State<V>, anchor: nat, value: V, size: nat): State<V> {
    if anchor == 0 then s else s.(anchors := s.anchors[anchor := Anchored(value, size)])
  }

  function Finished<V>(r: Result<Read<V>, Error>, anchor: nat): Result<Read<V>, Error> {
    match r
    case Err(e) => Err(e)
    case Ok(read) => Ok(read.(after := Remember(read.after, anchor, read.value, read.size)))
  }

  function CopyAnchor<V>(s: State<V>, id: nat): Result<Read<V>, Error> {
    if id !in s.anchors then Err(UnknownAnchor)
    else
      var a := s.anchors[id];
      if s.copied + a.size > AliasBudget(s.pos) then Err(TooManyCopies)
      else Ok(Read(a.value, a.size, s.(copied := s.copied + a.size)))
  }

  function ReadNode(env: Env, s: State<Json>, event: Event, depth: nat): (r: JsonRead)
    ensures r.Ok? && s.pos <= |env.input| ==> s.pos <= r.value.after.pos <= |env.input|
    decreases if s.pos <= |env.input| then |env.input| - s.pos else 0, 1
  {
    if depth > MAX_DEPTH then Err(TooDeep)
    else
      match event
      case Alias(id) => CopyAnchor(s, id)
      case Scalar(text, style, anchor, tag) =>
        if IsVault(tag) then Err(Encrypted)
        else Finished(Ok(Read(LeafValue(env, text, style, tag), 1, s)), anchor)
      case SequenceStart(anchor) => Finished(ReadItems(env, s, depth, [], 1), anchor)
      case MappingStart(anchor) => Finished(ReadEntries(env, s, depth, map[], 1), anchor)
      case _ => Err(UnexpectedEvent)
  }

  /** The rest of a sequence, after these items. */
  function ReadItems(env: Env, s: State<Json>, depth: nat, items: seq<Json>, size: nat): (r: JsonRead)
    ensures r.Ok? && s.pos <= |env.input| ==> s.pos <= r.value.after.pos <= |env.input|
    decreases if s.pos <= |env.input| then |env.input| - s.pos else 0, 0
  {
    match NextEvent(env, s)
    case Err(e) => Err(e)
    case Ok(event) =>
      if event.SequenceEnd? then Ok(Read(Arr(items), size, Advanced(s)))
      else
        match ReadNode(env, Advanced(s), event, depth + 1)
        case Err(e) => Err(e)
        case Ok(item) => ReadItems(env, item.after, depth, items + [item.value], size + item.size)
  }

  function KeyOf(env: Env, anchors: map<nat, Anchored<Json>>, event: Event): Result<string, Error> {
    match event
    case Scalar(text, _, _, _) => Ok(text)
    case Alias(id) =>
      if id !in anchors then Err(KeyNotScalar)
      else
        (match anchors[id].value
         case Str(text) => Ok(text)
         case Arr(_) => Err(KeyNotScalar)
         case Obj(_) => Err(KeyNotScalar)
         case other => Ok(env.jsonText(other)))
    case _ => Err(KeyNotScalar)
  }

  /** The rest of a mapping, after these entries. */
  function ReadEntries(env: Env, s: State<Json>, depth: nat, fields: map<string, Json>, size: nat): (r: JsonRead)
    ensures r.Ok? && s.pos <= |env.input| ==> s.pos <= r.value.after.pos <= |env.input|
    decreases if s.pos <= |env.input| then |env.input| - s.pos else 0, 0
  {
    match NextEvent(env, s)
    case Err(e) => Err(e)
    case Ok(first) =>
      if first.MappingEnd? then Ok(Read(Obj(fields), size, Advanced(s)))
      else
        match KeyOf(env, s.anchors, first)
        case Err(e) => Err(e)
        case Ok(key) =>
          match NextEvent(env, Advanced(s))
          case Err(e) => Err(e)
          case Ok(event) =>
            match ReadNode(env, Advanced(Advanced(s)), event, depth + 1)
            case Err(e) => Err(e)
            case Ok(entry) =>
              if key in fields then Err(DuplicateKey(key))
              else ReadEntries(env, entry.after, depth, fields[key := entry.value], size + entry.size)
  }

  /** At most one document; the value and its size, with the state at the end. */
  function ReadStream(env: Env, s: State<Json>, value: Json, documents: nat): (r: JsonRead)
    decreases if s.pos <= |env.input| then |env.input| - s.pos else 0
  {
    match NextEvent(env, s)
    case Err(e) => Err(e)
    case Ok(event) =>
      match event
      case StreamStart => ReadStream(env, Advanced(s), value, documents)
      case DocumentEnd => ReadStream(env, Advanced(s), value, documents)
      case StreamEnd => Ok(Read(value, 0, Advanced(s)))
      case DocumentStart =>
        if documents > 0 then Err(SecondDocument)
        else
          (match NextEvent(env, Advanced(s))
           case Err(e) => Err(e)
           case Ok(root) =>
             match ReadNode(env, Advanced(Advanced(s)), root, 0)
             case Err(e) => Err(e)
             case Ok(read) => ReadStream(env, read.after, read.value, documents + 1))
      case _ => Err(OutsideDocument)
  }

  const START: State<Json> := State(0, map[], 0)

  function ReadAll(env: Env): JsonRead {
    ReadStream(env, START, Null, 0)
  }

  // ----- the reader -----

  class Reader {
    const env: Env
    var pos: nat
    var anchors: map<nat, Anchored<Json>>
    var events: nat
    var copied: nat

    constructor (env: Env)
      ensures this.env == env && Valid() && Now() == START
    {
      this.env := env;
      pos, anchors, events, copied := 0, map[], 0, 0;
    }

    ghost function Now(): State<Json>
      reads this
    {
      State(pos, anchors, copied)
    }

    /** As long as nothing failed, every event counted was an event read. */
    ghost predicate Valid()
      reads this
    {
      events == pos <= |env.input|
    }

    /** This method did what the function says. */
    ghost predicate Did(r: Result<Anchored<Json>, Error>, wanted: JsonRead)
      reads this
    {
      match wanted
      case Err(e) => r == Err(e)
      case Ok(read) => r == Ok(Anchored(read.value, read.size)) && Valid() && Now() == read.after
    }

    method Next() returns (r: Result<Event, Error>)
      requires Valid()
      modifies this
      ensures r == NextEvent(env, old(Now()))
      ensures r.Ok? ==> Valid() && Now() == Advanced(old(Now()))
    {
      events := events + 1;
      if pos == |env.input| {
        return Err(UnexpectedEnd);
      }
      var event := env.input[pos];
      pos := pos + 1;
      r := if event.Failure? then Err(Malformed) else Ok(event);
    }

    method Node(event: Event, depth: nat) returns (r: Result<Anchored<Json>, Error>)
      requires Valid()
      modifies this
      ensures Did(r, ReadNode(env, old(Now()), event, depth))
      decreases |env.input| - pos, 1
    {
      if depth > MAX_DEPTH {
        return Err(TooDeep);
      }
      var anchor := 0;
      if event.Alias? {
        if event.id !in anchors {
          return Err(UnknownAnchor);
        }
        var known := anchors[event.id];
        copied := copied + known.size;
        if copied > AliasBudget(events) {
          return Err(TooManyCopies);
        }
        return Ok(known);
      } else if event.Scalar? {
        if IsVault(event.tag) {
          return Err(Encrypted);
        }
        r := Ok(Anchored(LeafValue(env, event.text, event.style, event.tag), 1));
        anchor := event.anchor;
      } else if event.SequenceStart? {
        r := Items(depth);
        anchor := event.anchor;
      } else if event.MappingStart? {
        r := Entries(depth);
        anchor := event.anchor;
      } else {
        return Err(UnexpectedEvent);
      }
      if r.Ok? && anchor != 0 {
        anchors := anchors[anchor := r.value];
      }
    }

    method Items(depth: nat) returns (r: Result<Anchored<Json>, Error>)
      requires Valid()
      modifies this
      ensures Did(r, ReadItems(env, old(Now()), depth, [], 1))
      decreases |env.input| - pos, 0
    {
      var items: seq<Json> := [];
      var size: nat := 1;
      ghost var wanted := ReadItems(env, Now(), depth, [], 1);
      while true
        invariant Valid() && old(pos) <= pos
        invariant wanted == ReadItems(env, Now(), depth, items, size)
        decreases |env.input| - pos
      {
        var next := Next();
        if next.Err? {
          return Err(next.error);
        }
        if next.value.SequenceEnd? {
          return Ok(Anchored(Arr(items), size));
        }
        var item := Node(next.value, depth + 1);
        if item.Err? {
          return item;
        }
        items, size := items + [item.value.value], size + item.value.size;
      }
    }

    /** A key's own text, or the text of the scalar it is an alias of. */
    method Key(event: Event) returns (r: Result<string, Error>)
      ensures r == KeyOf(env, anchors, event)
    {
      if event.Scalar? {
        return Ok(event.text);
      }
      if !event.Alias? || event.id !in anchors {
        return Err(KeyNotScalar);
      }
      var value := anchors[event.id].value;
      if value.Arr? || value.Obj? {
        return Err(KeyNotScalar);
      }
      r := Ok(if value.Str? then value.text else env.jsonText(value));
    }

    method Entries(depth: nat) returns (r: Result<Anchored<Json>, Error>)
      requires Valid()
      modifies this
      ensures Did(r, ReadEntries(env, old(Now()), depth, map[], 1))
      decreases |env.input| - pos, 0
    {
      hide ReadNode, ReadItems, KeyOf;
      var fields: map<string, Json> := map[];
      var size: nat := 1;
      ghost var wanted := ReadEntries(env, Now(), depth, map[], 1);
      while true
        invariant Valid() && old(pos) <= pos
        invariant wanted == ReadEntries(env, Now(), depth, fields, size)
        decreases |env.input| - pos
      {
        var first := Next();
        if first.Err? {
          return Err(first.error);
        }
        if first.value.MappingEnd? {
          return Ok(Anchored(Obj(fields), size));
        }
        var key := Key(first.value);
        if key.Err? {
          return Err(key.error);
        }
        var next := Next();
        if next.Err? {
          return Err(next.error);
        }
        var entry := Node(next.value, depth + 1);
        if entry.Err? {
          return entry;
        }
        if key.value in fields {
          return Err(DuplicateKey(key.value));
        }
        fields, size := fields[key.value := entry.value.value], size + entry.value.size;
      }
    }

    method Stream() returns (r: Result<Json, Error>)
      requires Valid() && Now() == START
      modifies this
      ensures match ReadAll(env)
              case Err(e) => r == Err(e)
              case Ok(read) => r == Ok(read.value) && Now() == read.after && events == read.after.pos
    {
      var value := Null;
      var documents := 0;
      while true
        invariant Valid()
        invariant ReadAll(env) == ReadStream(env, Now(), value, documents)
        decreases |env.input| - pos
      {
        var next := Next();
        if next.Err? {
          return Err(next.error);
        }
        var event := next.value;
        if event.StreamEnd? {
          return Ok(value);
        } else if event.DocumentStart? {
          documents := documents + 1;
          if documents > 1 {
            return Err(SecondDocument);
          }
          var first := Next();
          if first.Err? {
            return Err(first.error);
          }
          var root := Node(first.value, 0);
          if root.Err? {
            return Err(root.error);
          }
          value := root.value.value;
        } else if !event.StreamStart? && !event.DocumentEnd? {
          return Err(OutsideDocument);
        }
      }
    }
  }
}
