/** The serialisation cell never lies: whatever sequence of reads, clones and
    mutations a set of entries goes through, sharing cells as clones do, every
    reader is served the text of the dataset its entry holds
    (src/domain/cache_entry.rs:70-75, 149-185). */
module SharedCell {
  import opened Json
  import opened Datasets
  import opened Entries
  import opened CacheEntries

  datatype Mutation =
    | UpdateHost(host: string, vars: HostVars, ageSeconds: nat, now: nat)
    | PutBack(retained: Retained, now: nat)
    | MoveHost(host: string, groups: set<string>)
    | PatchHostvars(partial: Dataset)
    | PatchGroupVars(partial: Dataset)
    | Merge(partial: Dataset, restampExisting: bool, now: nat)
    | Remove(host: string)
    | RefreshGroup(name: string, partial: Dataset, now: nat)
    | SetPartial
    | SetGathered(now: nat)
    | Ttl(seconds: nat)

  function Mutated(e: Entry, m: Mutation): Entry {
    match m
    case UpdateHost(host, vars, age, now) => UpdateHostAged(e, host, vars, age, now)
    case PutBack(retained, now) => RestoreHost(e, retained, now)
    case MoveHost(host, groups) => SetHostGroups(e, host, groups)
    case PatchHostvars(partial) => MergeHostvarFields(e, partial)
    case PatchGroupVars(partial) => MergeGroupVarFields(e, partial)
    case Merge(partial, restamp, now) => MergeInto(e, partial, restamp, now)
    case Remove(host) => RemoveHost(e, host)
    case RefreshGroup(name, partial, now) => UpdateGroup(e, name, partial, now)
    case SetPartial => MarkPartial(e)
    case SetGathered(now) => MarkGathered(e, now)
    case Ttl(seconds) => SetTtl(e, seconds)
  }

  datatype Op =
    | Create(dataset: Dataset, ttlSeconds: nat, now: nat)
    | Load(dataset: Dataset, ttlSeconds: nat, ages: Ages, now: nat)
    | Share(entry: nat)
    | Read(entry: nat)
    | Mutate(entry: nat, mutation: Mutation)

  /** The entries as plain values: no cell, nothing shared. */
  function Step(pool: seq<Entry>, op: Op): seq<Entry> {
    match op
    case Create(d, ttlSeconds, now) => pool + [Entries.New(d, ttlSeconds, now)]
    case Load(d, ttlSeconds, ages, now) => pool + [Entries.Restore(d, ttlSeconds, ages, now)]
    case Share(i) => if i < |pool| then pool + [pool[i]] else pool
    case Read(_) => pool
    case Mutate(i, m) => if i < |pool| then pool[i := Mutated(pool[i], m)] else pool
  }

  function Pool(ops: seq<Op>): seq<Entry> {
    if ops == [] then [] else Step(Pool(ops[..|ops| - 1]), ops[|ops| - 1])
  }

  /** What the readers should see: each read serialises what the entry holds. */
  function Served(ops: seq<Op>): seq<Bytes> {
    if ops == [] then []
    else
      var earlier, op, pool := Served(ops[..|ops| - 1]), ops[|ops| - 1], Pool(ops[..|ops| - 1]);
      if op.Read? && op.entry < |pool| then earlier + [Serialize(pool[op.entry].dataset)] else earlier
  }

  method ApplyMutation(e: CacheEntry, m: Mutation)
    requires e.Valid()
    modifies e
    ensures e.Valid() && e.View() == Mutated(old(e.View()), m)
    ensures e.serialized == old(e.serialized) || fresh(e.serialized)
  {
    match m {
      case UpdateHost(host, vars, age, now) => e.UpdateHostAged(host, vars, age, now);
      case PutBack(retained, now) => e.RestoreHost(retained, now);
      case MoveHost(host, groups) => e.SetHostGroups(host, groups);
      case PatchHostvars(partial) => e.MergeHostvarFields(partial);
      case PatchGroupVars(partial) => e.MergeGroupVarFields(partial);
      case Merge(partial, restamp, now) => e.MergeInto(partial, restamp, now);
      case Remove(host) => e.RemoveHost(host);
      case RefreshGroup(name, partial, now) => e.UpdateGroup(name, partial, now);
      case SetPartial => e.MarkPartial();
      case SetGathered(now) => e.MarkGathered(now);
      case Ttl(seconds) => e.SetTtl(seconds);
    }
  }

  /** Runs any list of operations on entry objects that share cells: the entries
      hold what the values hold, and every read is answered as if it had
      serialised the entry there and then. */
  method Replay(ops: seq<Op>) returns (pool: seq<CacheEntry>, served: seq<Bytes>)
    ensures |pool| == |Pool(ops)| && served == Served(ops)
    ensures forall i | 0 <= i < |pool| :: pool[i].Valid() && pool[i].View() == Pool(ops)[i]
  {
    pool, served := [], [];
    for n := 0 to |ops|
      invariant |pool| == |Pool(ops[..n])| && served == Served(ops[..n])
      invariant forall i | 0 <= i < |pool| :: fresh(pool[i]) && fresh(pool[i].serialized)
      invariant forall i, j | 0 <= i < j < |pool| :: pool[i] != pool[j]
      invariant forall i | 0 <= i < |pool| :: pool[i].Valid() && pool[i].View() == Pool(ops[..n])[i]
    {
      assert ops[..n + 1][..n] == ops[..n];
      var op := ops[n];
      if op.Create? {
        var e := new CacheEntry.New(op.dataset, op.ttlSeconds, op.now);
        pool := pool + [e];
      } else if op.Load? {
        var e := new CacheEntry.Restore(op.dataset, op.ttlSeconds, op.ages, op.now);
        pool := pool + [e];
      } else if op.entry < |pool| {
        if op.Share? {
          var e := new CacheEntry.Clone(pool[op.entry]);
          pool := pool + [e];
        } else if op.Read? {
          var bytes := pool[op.entry].SerializedJson();
          served := served + [bytes];
        } else {
          ApplyMutation(pool[op.entry], op.mutation);
        }
      }
    }
    assert ops[..|ops|] == ops;
  }

  /** Every host has a timestamp and nothing else has one, in every entry made by
      a gather here (an entry loaded with ages has the timestamps those ages
      name), whatever is done to it afterwards. */
  lemma {:induction false} TimestampsCoverHosts(ops: seq<Op>)
    requires forall i | 0 <= i < |ops| :: !ops[i].Load?
    ensures forall i | 0 <= i < |Pool(ops)| :: KeysAgree(Pool(ops)[i])
  {
    if ops != [] {
      TimestampsCoverHosts(ops[..|ops| - 1]);
      var op := ops[|ops| - 1];
      if op.Mutate? && op.entry < |Pool(ops[..|ops| - 1])| {
        MutationKeepsKeys(Pool(ops[..|ops| - 1])[op.entry], op.mutation);
      }
    }
  }

  lemma MutationKeepsKeys(e: Entry, m: Mutation)
    requires KeysAgree(e)
    ensures KeysAgree(Mutated(e, m))
  {
  }
}
