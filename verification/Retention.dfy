/** A replace sync that could not reach every host keeps the ones it missed
    (src/application/sync.rs:796-844, src/domain/cache_entry.rs:292-337). */
module Retention {
  import opened Json
  import opened Datasets
  import opened Entries

  /** The states captured before the entry is replaced. */
  function Captured(e: Entry, gathered: Dataset, unreachable: seq<string>, now: nat): seq<Retained> {
    if unreachable == [] then []
    else
      var earlier := Captured(e, gathered, unreachable[..|unreachable| - 1], now);
      var host := unreachable[|unreachable| - 1];
      if host in gathered.hostvars then earlier
      else
        match CaptureHost(e, host, now)
        case Some(r) => earlier + [r]
        case None => earlier
  }

  function RestoreAll(e: Entry, rs: seq<Retained>, now: nat): Entry {
    if rs == [] then e else RestoreHost(RestoreAll(e, rs[..|rs| - 1], now), rs[|rs| - 1], now)
  }

  function Replacement(gathered: Dataset, ttlSeconds: nat, ages: Option<Ages>, now: nat): Entry {
    match ages
    case Some(a) => Restore(gathered, ttlSeconds, a, now)
    case None => New(gathered, ttlSeconds, now)
  }

  /** The whole replacement: capture at one reading of the clock, rebuild and
      restore at a later one. */
  function ReplaceKeeping(e: Entry, gathered: Dataset, unreachable: seq<string>, ttlSeconds: nat,
                          ages: Option<Ages>, capture: nat, now: nat): Entry {
    RestoreAll(Replacement(gathered, ttlSeconds, ages, now),
               Captured(e, gathered, unreachable, capture), now)
  }

  /** The hosts a replacement keeps: not reached, not gathered, and held before. */
  function Kept(e: Entry, gathered: Dataset, unreachable: seq<string>): set<string> {
    set h | h in unreachable && h !in gathered.hostvars && h in e.dataset.hostvars
  }

  predicate MemberOf(groups: map<string, Group>, name: string, host: string) {
    name in groups && host in groups[name].hosts
  }

  function AgeAt(e: Entry, host: string, now: nat): nat {
    if host in e.stamps then Elapsed(now, e.stamps[host]) / TICKS else 0
  }

  /** `after` is `base` with the hosts of `kept` put back as `e` held them: their
      variables and stamps, their memberships, and nothing else of the groups. */
  ghost predicate PutBack(base: Entry, e: Entry, kept: set<string>, after: Entry, capture: nat, now: nat) {
    && StatesPutBack(base, e, kept, after, capture, now)
    && MembershipsPutBack(base.dataset.groups, e.dataset.groups, kept, after.dataset.groups)
    && ShapesKept(base.dataset.groups, after.dataset.groups)
  }

  ghost predicate StatesPutBack(base: Entry, e: Entry, kept: set<string>, after: Entry, capture: nat, now: nat) {
    && kept <= e.dataset.hostvars.Keys
    && after.dataset.hostvars.Keys == base.dataset.hostvars.Keys + kept
    && after.stamps.Keys == base.stamps.Keys + kept
    && (forall h | h in after.dataset.hostvars ::
          after.dataset.hostvars[h] == if h in kept then e.dataset.hostvars[h] else base.dataset.hostvars[h])
    && (forall h | h in after.stamps ::
          after.stamps[h] == if h in kept then Backdated(now, AgeAt(e, h, capture)) else base.stamps[h])
  }

  ghost predicate MembershipsPutBack(base: map<string, Group>, former: map<string, Group>, kept: set<string>,
                                     after: map<string, Group>) {
    forall name, h :: MemberOf(after, name, h) <==>
      MemberOf(base, name, h) || (h in kept && MemberOf(former, name, h))
  }

  ghost predicate ShapesKept(base: map<string, Group>, after: map<string, Group>) {
    && base.Keys <= after.Keys
    && forall name | name in after ::
         && after[name].children == GroupOr(base, name).children
         && after[name].vars == GroupOr(base, name).vars
  }

  lemma JoinedMembers(groups: map<string, Group>, host: string, names: set<string>)
    ensures
      var after := Joined(groups, host, names);
      && after.Keys == groups.Keys + names
      && (forall name, h :: MemberOf(after, name, h) <==>
            MemberOf(groups, name, h) || (h == host && name in names))
      && forall name | name in after :: && after[name].children == GroupOr(groups, name).children
                                        && after[name].vars == GroupOr(groups, name).vars
  {
    var after := Joined(groups, host, names);
    forall name, h
      ensures MemberOf(after, name, h) <==> MemberOf(groups, name, h) || (h == host && name in names)
    {
      if name in after {
        var g := GroupOr(groups, name);
        assert after[name].hosts == if name in names then Including(g.hosts, host) else g.hosts;
      }
    }
  }

  lemma JoinPutsBack(base: map<string, Group>, former: map<string, Group>, kept: set<string>,
                     middle: map<string, Group>, host: string)
    requires MembershipsPutBack(base, former, kept, middle)
    requires ShapesKept(base, middle)
    ensures MembershipsPutBack(base, former, kept + {host}, Joined(middle, host, GroupsOf(former, host)))
    ensures ShapesKept(base, Joined(middle, host, GroupsOf(former, host)))
  {
    var after := Joined(middle, host, GroupsOf(former, host));
    JoinedMembers(middle, host, GroupsOf(former, host));
    forall name, h
      ensures MemberOf(after, name, h) <==>
        MemberOf(base, name, h) || (h in kept + {host} && MemberOf(former, name, h))
    {
      assert name in GroupsOf(former, host) <==> MemberOf(former, name, host);
    }
  }

  lemma StateGoesBack(base: Entry, e: Entry, kept: set<string>, middle: Entry, r: Retained, capture: nat, now: nat)
    requires StatesPutBack(base, e, kept, middle, capture, now)
    requires CaptureHost(e, r.hostname, capture) == Some(r)
    ensures StatesPutBack(base, e, kept + {r.hostname}, RestoreHost(middle, r, now), capture, now)
  {
    hide Joined;
    var after := RestoreHost(middle, r, now);
    var h := r.hostname;
    assert after.dataset.hostvars == middle.dataset.hostvars[h := e.dataset.hostvars[h]];
    assert after.stamps == middle.stamps[h := Backdated(now, AgeAt(e, h, capture))];
  }

  lemma RestoreOne(base: Entry, e: Entry, kept: set<string>, middle: Entry, r: Retained, capture: nat, now: nat)
    requires PutBack(base, e, kept, middle, capture, now)
    requires CaptureHost(e, r.hostname, capture) == Some(r)
    ensures PutBack(base, e, kept + {r.hostname}, RestoreHost(middle, r, now), capture, now)
  {
    StateGoesBack(base, e, kept, middle, r, capture, now);
    JoinPutsBack(base.dataset.groups, e.dataset.groups, kept, middle.dataset.groups, r.hostname);
  }

  /** One more unreachable host changes nothing, or is captured and restored last. */
  lemma OneMoreUnreachable(e: Entry, gathered: Dataset, earlier: seq<string>, host: string, base: Entry,
                           capture: nat, now: nat)
    ensures
      var before := RestoreAll(base, Captured(e, gathered, earlier, capture), now);
      var after := RestoreAll(base, Captured(e, gathered, earlier + [host], capture), now);
      if host in gathered.hostvars || host !in e.dataset.hostvars then
        after == before && Kept(e, gathered, earlier + [host]) == Kept(e, gathered, earlier)
      else
        && after == RestoreHost(before, CaptureHost(e, host, capture).value, now)
        && Kept(e, gathered, earlier + [host]) == Kept(e, gathered, earlier) + {host}
  {
    assert (earlier + [host])[..|earlier|] == earlier;
    var rs := Captured(e, gathered, earlier, capture);
    if host !in gathered.hostvars && host in e.dataset.hostvars {
      assert (rs + [CaptureHost(e, host, capture).value])[..|rs|] == rs;
    }
  }

  /** Everything a replacement puts in the entry, and nothing else. */
  lemma {:induction false} ReplacementHolds(e: Entry, gathered: Dataset, unreachable: seq<string>, ttlSeconds: nat,
                                            ages: Option<Ages>, capture: nat, now: nat)
    ensures PutBack(Replacement(gathered, ttlSeconds, ages, now), e, Kept(e, gathered, unreachable),
                    ReplaceKeeping(e, gathered, unreachable, ttlSeconds, ages, capture, now), capture, now)
  {
    var base := Replacement(gathered, ttlSeconds, ages, now);
    if unreachable != [] {
      var earlier := unreachable[..|unreachable| - 1];
      var host := unreachable[|unreachable| - 1];
      assert unreachable == earlier + [host];
      ReplacementHolds(e, gathered, earlier, ttlSeconds, ages, capture, now);
      OneMoreUnreachable(e, gathered, earlier, host, base, capture, now);
      if host !in gathered.hostvars && host in e.dataset.hostvars {
        RestoreOne(base, e, Kept(e, gathered, earlier),
                   RestoreAll(base, Captured(e, gathered, earlier, capture), now),
                   CaptureHost(e, host, capture).value, capture, now);
      }
    }
  }

  /** The retention rule. The hosts after a replacement are the gathered ones and
      the unreachable ones held before; each kept host has the variables it had and
      every group it was in (and any the gather lists it in besides); every other
      host is exactly where the gather put it. */
  lemma RetentionKeepsWholeHosts(e: Entry, gathered: Dataset, unreachable: seq<string>, ttlSeconds: nat,
                                 ages: Option<Ages>, capture: nat, now: nat)
    ensures
      var after := ReplaceKeeping(e, gathered, unreachable, ttlSeconds, ages, capture, now);
      var kept := Kept(e, gathered, unreachable);
      && after.dataset.hostvars.Keys == gathered.hostvars.Keys + kept
      && (forall h | h in gathered.hostvars :: after.dataset.hostvars[h] == gathered.hostvars[h])
      && (forall h | h in kept :: after.dataset.hostvars[h] == e.dataset.hostvars[h])
      && (forall name, h :: MemberOf(after.dataset.groups, name, h) <==>
            MemberOf(gathered.groups, name, h) || (h in kept && MemberOf(e.dataset.groups, name, h)))
      && (forall name | name in gathered.groups ::
            && name in after.dataset.groups
            && after.dataset.groups[name].children == gathered.groups[name].children
            && after.dataset.groups[name].vars == gathered.groups[name].vars)
      && (ages.None? ==> KeysAgree(after))
  {
    ReplacementHolds(e, gathered, unreachable, ttlSeconds, ages, capture, now);
  }

  /** What truncating an age to whole seconds costs: putting a stamp back at
      `now` from an age read at `capture` never makes the host older, and makes it
      younger by less than one second and the time in between. The clock can
      always represent the result. */
  lemma BackdatingDrift(ts: nat, capture: nat, now: nat)
    requires ts <= capture <= now
    ensures CheckedSub(now, Elapsed(capture, ts) / TICKS).Some?
    ensures ts <= Backdated(now, Elapsed(capture, ts) / TICKS) <= now
    ensures Backdated(now, Elapsed(capture, ts) / TICKS) < ts + TICKS + (now - capture)
  {
    var age := capture - ts;
    assert age / TICKS * TICKS <= age < age / TICKS * TICKS + TICKS;
  }

  /** One failed gather of a host: what it returned, what it missed, and when the
      old state was read and the new one written. */
  datatype Round = Round(gathered: Dataset, unreachable: seq<string>, ttlSeconds: nat, ages: Option<Ages>,
                         capture: nat, now: nat)

  function AfterRounds(e: Entry, rounds: seq<Round>): Entry {
    if rounds == [] then e
    else
      var r := rounds[|rounds| - 1];
      ReplaceKeeping(AfterRounds(e, rounds[..|rounds| - 1]), r.gathered, r.unreachable, r.ttlSeconds, r.ages,
                     r.capture, r.now)
  }

  /** The clock never runs back, within a round or between two. */
  predicate ClockRuns(start: nat, rounds: seq<Round>) {
    && (forall i | 0 <= i < |rounds| :: start <= rounds[i].capture <= rounds[i].now)
    && (forall i, j | 0 <= i < j < |rounds| :: rounds[i].now <= rounds[j].capture)
  }

  function Delays(rounds: seq<Round>): nat
    requires forall i | 0 <= i < |rounds| :: rounds[i].capture <= rounds[i].now
  {
    if rounds == [] then 0
    else
      var r := rounds[|rounds| - 1];
      Delays(rounds[..|rounds| - 1]) + (r.now - r.capture)
  }

  /** However many gathers in a row miss a host, it stays, with the variables of
      its last gather, and its recorded gathering time drifts forward by less than
      a second and the capture-to-restore delay per round: its recorded age never
      exceeds the true one, and falls short of it by a bounded amount. */
  lemma {:induction false} FailedRoundsDriftIsBounded(e: Entry, host: string, rounds: seq<Round>)
    requires host in e.stamps && host in e.dataset.hostvars
    requires ClockRuns(e.stamps[host], rounds)
    requires forall i | 0 <= i < |rounds| ::
               host in rounds[i].unreachable && host !in rounds[i].gathered.hostvars
    ensures
      var after := AfterRounds(e, rounds);
      && host in after.stamps && host in after.dataset.hostvars
      && after.dataset.hostvars[host] == e.dataset.hostvars[host]
      && e.stamps[host] <= after.stamps[host] <= e.stamps[host] + |rounds| * TICKS + Delays(rounds)
      && (rounds != [] ==> after.stamps[host] < e.stamps[host] + |rounds| * TICKS + Delays(rounds))
      && (rounds != [] ==> after.stamps[host] <= rounds[|rounds| - 1].now)
      && forall name :: MemberOf(e.dataset.groups, name, host) ==> MemberOf(after.dataset.groups, name, host)
  {
    if rounds != [] {
      var earlier := rounds[..|rounds| - 1];
      var r := rounds[|rounds| - 1];
      FailedRoundsDriftIsBounded(e, host, earlier);
      var before := AfterRounds(e, earlier);
      ReplacementHolds(before, r.gathered, r.unreachable, r.ttlSeconds, r.ages, r.capture, r.now);
      RetentionKeepsWholeHosts(before, r.gathered, r.unreachable, r.ttlSeconds, r.ages, r.capture, r.now);
      if earlier != [] {
        assert earlier[|earlier| - 1].now <= r.capture;
      }
      BackdatingDrift(before.stamps[host], r.capture, r.now);
    }
  }
}
