/** JSON values, as the program holds them: a number is a 64-bit integer or a
    floating-point value. A float is the bits of its 64-bit representation:
    nothing here computes with one. */
module Json {
  import opened Sums

  datatype Option<+T> = None | Some(value: T)

  datatype Result<+T, +E> = Ok(value: T) | Err(error: E)

  datatype Number = Int(n: int) | Float(bits: nat)

  datatype Json =
    | Null
    | Bool(b: bool)
    | Num(number: Number)
    | Str(text: string)
    | Arr(items: seq<Json>)
    | Obj(fields: map<string, Json>)

  /** A host's (or a group's) variables: free key-value pairs. */
  type HostVars = map<string, Json>

  /** How many nodes a value holds: itself and everything below it. */
  ghost function Nodes(j: Json): (n: nat)
    ensures n >= 1
  {
    match j
    case Arr(items) => 1 + NodesOfList(items)
    case Obj(fields) => 1 + Total(map k | k in fields :: Nodes(fields[k]))
    case _ => 1
  }

  ghost function NodesOfList(items: seq<Json>): nat {
    if items == [] then 0
    else NodesOfList(items[..|items| - 1]) + Nodes(items[|items| - 1])
  }

  lemma NodesAppend(items: seq<Json>, item: Json)
    ensures Nodes(Arr(items + [item])) == Nodes(Arr(items)) + Nodes(item)
  {
    assert (items + [item])[..|items|] == items;
  }

  lemma NodesInsert(fields: map<string, Json>, key: string, value: Json)
    requires key !in fields
    ensures Nodes(Obj(fields[key := value])) == Nodes(Obj(fields)) + Nodes(value)
  {
    var sizes := map k | k in fields :: Nodes(fields[k]);
    var grown := fields[key := value];
    assert (map k | k in grown :: Nodes(grown[k])) == sizes[key := Nodes(value)];
    TotalWith(sizes, key, Nodes(value));
  }

  lemma NodesOfEmpty(fields: map<string, Json>)
    ensures fields == map[] ==> Nodes(Obj(fields)) == 1
    ensures Nodes(Arr([])) == 1
  {
    var sizes := map k | k in fields :: Nodes(fields[k]);
    if fields == map[] {
      assert sizes == map[];
    }
  }
}
