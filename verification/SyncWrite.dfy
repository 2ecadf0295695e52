/** A sync's cache write, step by step on the entry object
    (src/application/sync.rs:637-861). The cache hands the write its entry under
    one lock, or says there is none (src/ports/cache.rs:37-74). */
module SyncWrite {
  import opened Json
  import opened Datasets
  import opened Sources
  import opened Entries
  import opened Retention
  import opened SyncApply
  import opened CacheEntries

  ghost function ViewOf(e: CacheEntry?): Option<Entry>
    reads e
  {
    if e == null then None else Some(e.View())
  }

  /** The requested hosts the connector answered for. */
  method AnsweredHosts(hosts: seq<string>, out: Output) returns (answered: seq<string>)
    ensures answered == Answered(hosts, out)
  {
    answered := [];
    for i := 0 to |hosts|
      invariant answered == Answered(hosts[..i], out)
    {
      assert hosts[..i + 1][..i] == hosts[..i];
      if hosts[i] in out.dataset.hostvars {
        answered := answered + [hosts[i]];
      }
    }
    assert hosts[..|hosts|] == hosts;
  }

  method WriteHosts(entry: CacheEntry, answered: seq<string>, out: Output, now: nat)
    requires entry.Valid()
    requires forall h | h in answered :: h in out.dataset.hostvars
    modifies entry
    ensures entry.Valid() && entry.View() == UpdateHosts(old(entry.View()), answered, out, now)
    ensures entry.serialized == old(entry.serialized) || fresh(entry.serialized)
  {
    for i := 0 to |answered|
      invariant entry.Valid() && entry.View() == UpdateHosts(old(entry.View()), answered[..i], out, now)
      invariant entry.serialized == old(entry.serialized) || fresh(entry.serialized)
    {
      assert answered[..i + 1][..i] == answered[..i];
      entry.UpdateHostAged(answered[i], out.dataset.hostvars[answered[i]], AgeOf(out, answered[i]), now);
    }
    assert answered[..|answered|] == answered;
  }

  method WriteMemberships(entry: CacheEntry, answered: seq<string>, out: Output)
    requires entry.Valid()
    modifies entry
    ensures entry.Valid() && entry.View() == PlaceHosts(old(entry.View()), answered, out)
    ensures entry.serialized == old(entry.serialized) || fresh(entry.serialized)
  {
    for i := 0 to |answered|
      invariant entry.Valid() && entry.View() == PlaceHosts(old(entry.View()), answered[..i], out)
      invariant entry.serialized == old(entry.serialized) || fresh(entry.serialized)
    {
      assert answered[..i + 1][..i] == answered[..i];
      var groups := GroupsOf(out.dataset.groups, answered[i]);
      if groups != {} {
        entry.SetHostGroups(answered[i], groups);
      }
    }
    assert answered[..|answered|] == answered;
  }

  method WriteHostScope(prev: CacheEntry?, source: Source, hosts: seq<string>, out: Output, now: nat)
    returns (next: CacheEntry?)
    requires prev != null ==> prev.Valid()
    modifies prev
    ensures next != null ==> next.Valid()
    ensures ViewOf(next) == ApplyHosts(old(ViewOf(prev)), source, hosts, out, now)
  {
    var answered := AnsweredHosts(hosts, out);
    if answered == [] {
      return prev;
    }
    if prev != null {
      WriteHosts(prev, answered, out, now);
      WriteMemberships(prev, answered, out);
      if source.hostSyncUpdatesGroupVars {
        prev.MergeGroupVarFields(ClaimedGroupVars(answered, out));
      }
      prev.SetTtl(source.ttlSeconds);
      return prev;
    }
    var entry := new CacheEntry.New(out.dataset, source.ttlSeconds, now);
    WriteHosts(entry, answered, out, now);
    entry.MarkPartial();
    next := entry;
  }

  method WriteReplacement(prev: CacheEntry, source: Source, out: Output, capture: nat, now: nat)
    returns (entry: CacheEntry)
    ensures entry.Valid() && fresh(entry)
    ensures entry.View() == ReplaceKeeping(prev.View(), out.dataset, out.unreachable, source.ttlSeconds, out.ages,
                                           capture, now)
  {
    var retained: seq<Retained> := [];
    for i := 0 to |out.unreachable|
      invariant retained == Captured(prev.View(), out.dataset, out.unreachable[..i], capture)
    {
      assert out.unreachable[..i + 1][..i] == out.unreachable[..i];
      if out.unreachable[i] !in out.dataset.hostvars {
        var r := prev.CaptureHost(out.unreachable[i], capture);
        if r.Some? {
          retained := retained + [r.value];
        }
      }
    }
    assert out.unreachable[..|out.unreachable|] == out.unreachable;
    entry := NewEntry(out, source.ttlSeconds, now);
    ghost var base := entry.View();
    for i := 0 to |retained|
      invariant fresh(entry) && fresh(entry.serialized) && entry.Valid()
      invariant entry.View() == RestoreAll(base, retained[..i], now)
    {
      assert retained[..i + 1][..i] == retained[..i];
      entry.RestoreHost(retained[i], now);
    }
    assert retained[..|retained|] == retained;
  }

  method NewEntry(out: Output, ttlSeconds: nat, now: nat) returns (entry: CacheEntry)
    ensures entry.Valid() && fresh(entry) && fresh(entry.serialized)
    ensures entry.View() == Replacement(out.dataset, ttlSeconds, out.ages, now)
  {
    if out.ages.Some? {
      entry := new CacheEntry.Restore(out.dataset, ttlSeconds, out.ages.value, now);
    } else {
      entry := new CacheEntry.New(out.dataset, ttlSeconds, now);
    }
  }

  method WriteFullScope(prev: CacheEntry?, source: Source, out: Output, capture: nat, now: nat)
    returns (next: CacheEntry?)
    requires prev != null ==> prev.Valid()
    modifies prev
    ensures next != null ==> next.Valid()
    ensures ViewOf(next) == ApplyFull(old(ViewOf(prev)), source, out, capture, now)
  {
    if source.syncMode == Replace && out.unreachable == [] {
      var entry := NewEntry(out, source.ttlSeconds, now);
      return entry;
    }
    if prev == null {
      var entry := new CacheEntry.New(out.dataset, source.ttlSeconds, now);
      return entry;
    }
    if source.syncMode == Replace {
      var entry := WriteReplacement(prev, source, out, capture, now);
      entry.SetTtl(source.ttlSeconds);
      return entry;
    }
    prev.MergeInto(out.dataset, true, now);
    prev.MarkGathered(now);
    prev.SetTtl(source.ttlSeconds);
    next := prev;
  }

  /** What a sync leaves in the cache, for every scope and mode. */
  method ApplyToCache(prev: CacheEntry?, source: Source, scope: Scope, out: Output, capture: nat, now: nat)
    returns (next: CacheEntry?)
    requires prev != null ==> prev.Valid()
    modifies prev
    ensures next != null ==> next.Valid()
    ensures ViewOf(next) == Apply(old(ViewOf(prev)), source, scope, out, capture, now)
  {
    if scope.Hosts? {
      next := WriteHostScope(prev, source, scope.hosts, out, now);
    } else if scope.Full? {
      next := WriteFullScope(prev, source, out, capture, now);
    } else if prev != null {
      prev.UpdateGroup(scope.name, out.dataset, now);
      prev.SetTtl(source.ttlSeconds);
      next := prev;
    } else {
      var entry := new CacheEntry.New(out.dataset, source.ttlSeconds, now);
      entry.MarkPartial();
      next := entry;
    }
  }
}
