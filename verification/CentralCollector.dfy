/** The central collector: operation profiles in a size-limited map, filled sample by sample. */
module CentralCollectors {
  import opened Options
  import opened LruCache
  import opened ProfileStats

  // ---------- the collector as a value ----------

  /**
    `created` and `evictedCalls` are history: profiles created, and calls counted in profiles that
    were evicted, since the collector was built or cleared.
   */
  datatype State = State(limit: nat, cache: Cache<Stats>, totalSamples: nat, batches: nat, evictions: nat,
                         created: nat, evictedCalls: nat)

  function Initial(limit: nat): State {
    State(limit, map[], 0, 0, 0, 0, 0)
  }

  function Record(s: Sample): Stats -> Stats {
    (p: Stats) => AddSample(p, s)
  }

  function EvictedCalls(m: Cache<Stats>, victim: Option<string>): nat {
    if victim.Some? && victim.value in m then m[victim.value].value.calls else 0
  }

  function Process(c: State, s: Sample, now: int, victim: Option<string>): State {
    c.(cache := Access(c.cache, s.name, EMPTY, Record(s), now, victim),
       evictions := if victim.Some? then c.evictions + 1 else c.evictions,
       created := if s.name in c.cache then c.created else c.created + 1,
       evictedCalls := c.evictedCalls + EvictedCalls(c.cache, victim))
  }

  /** One sample, with whichever of the oldest profiles the search meets first as the victim. */
  ghost predicate ProcessStep(c: State, s: Sample, now: int, c': State) {
    exists victim :: Evicts(c.limit, c.cache, s.name, victim) && c' == Process(c, s, now, victim)
  }

  /** Samples in order; times[i] is the clock reading taken while processing samples[i]. */
  ghost predicate ProcessAll(c: State, samples: seq<Sample>, times: seq<int>, c': State)
    requires |samples| == |times|
  {
    if samples == [] then c' == c
    else
      var n := |samples| - 1;
      exists mid :: ProcessAll(c, samples[..n], times[..n], mid) && ProcessStep(mid, samples[n], times[n], c')
  }

  ghost predicate ReceiveBatch(c: State, samples: seq<Sample>, times: seq<int>, c': State)
    requires |samples| == |times|
  {
    if samples == [] then c' == c
    else ProcessAll(c.(batches := c.batches + 1, totalSamples := c.totalSamples + |samples|), samples, times, c')
  }

  lemma ExtendRun(c: State, samples: seq<Sample>, times: seq<int>, i: nat, mid: State, c': State)
    requires i < |samples| == |times|
    requires ProcessAll(c, samples[..i], times[..i], mid) && ProcessStep(mid, samples[i], times[i], c')
    ensures ProcessAll(c, samples[..i + 1], times[..i + 1], c')
  {
    assert samples[..i + 1][..i] == samples[..i] && times[..i + 1][..i] == times[..i];
  }

  /** Room made, and an empty profile entered. */
  function Admit(m: Cache<Stats>, name: string, victim: Option<string>): Cache<Stats> {
    (match victim case Some(k) => m - {k} case None => m)[name := Slot(EMPTY, 0)]
  }

  lemma AdmitThenUpdate(m: Cache<Stats>, found: Cache<Stats>, s: Sample, now: int, victim: Option<string>)
    requires found == if s.name in m then m else Admit(m, s.name, victim)
    ensures Access(m, s.name, EMPTY, Record(s), now, victim)
         == found[s.name := Slot(AddSample(found[s.name].value, s), now)]
  {
  }

  /** After the lookup or the creation. */
  function Found(c: State, name: string, victim: Option<string>): State {
    if name in c.cache then c
    else c.(cache := Admit(c.cache, name, victim),
            evictions := if victim.Some? then c.evictions + 1 else c.evictions,
            created := c.created + 1,
            evictedCalls := c.evictedCalls + EvictedCalls(c.cache, victim))
  }

  /** Finding or creating the profile, then aggregating into it, is one step. */
  lemma FoundThenTouched(c: State, s: Sample, now: int, victim: Option<string>)
    requires Evicts(c.limit, c.cache, s.name, victim)
    ensures var f := Found(c, s.name, victim);
            ProcessStep(c, s, now, f.(cache := f.cache[s.name := Slot(AddSample(f.cache[s.name].value, s), now)]))
  {
    var f := Found(c, s.name, victim);
    AdmitThenUpdate(c.cache, f.cache, s, now, victim);
    assert f.(cache := f.cache[s.name := Slot(AddSample(f.cache[s.name].value, s), now)]) == Process(c, s, now, victim);
  }

  // ---------- the collector as an object ----------

  class ProfileData {
    var totalCalls: nat
    var errorCount: nat
    var totalDuration: int
    var minDuration: int
    var maxDuration: int
    var avgDuration: int
    var lastAccess: int

    constructor ()
      ensures View() == Slot(EMPTY, 0)
    {
      totalCalls, errorCount, totalDuration := 0, 0, 0;
      minDuration, maxDuration, avgDuration, lastAccess := INT64_MAX, 0, 0, 0;
    }

    function Profile(): Stats
      reads this
    {
      Stats(totalCalls, errorCount, totalDuration, minDuration, maxDuration, avgDuration)
    }

    ghost function View(): Slot<Stats>
      reads this
    {
      Slot(Profile(), lastAccess)
    }

    method Aggregate(sample: Sample, now: int)
      modifies this
      ensures View() == Slot(AddSample(old(Profile()), sample), now)
    {
      lastAccess := now;
      totalCalls := totalCalls + 1;
      if !sample.success {
        errorCount := errorCount + 1;
      }
      totalDuration := totalDuration + sample.duration;
      minDuration := Min(minDuration, sample.duration);
      maxDuration := Max(maxDuration, sample.duration);
      if totalCalls > 0 {
        avgDuration := Average(totalDuration, totalCalls);
      }
    }
  }

  class CentralCollector {
    const maxProfiles: nat
    var profiles: map<string, ProfileData?>
    var totalSamples: nat
    var batchesReceived: nat
    var lruEvictions: nat
    ghost var created: nat
    ghost var evictedCalls: nat
    ghost var repr: set<ProfileData>  // every profile object built so far

    constructor (maxProfiles: nat)
      ensures Valid() && repr == {}
      ensures Abs() == Initial(maxProfiles)
    {
      this.maxProfiles := maxProfiles;
      profiles := map[];
      totalSamples, batchesReceived, lruEvictions := 0, 0, 0;
      created, evictedCalls, repr := 0, 0, {};
    }

    /** Each object is stored under one name only; a name may still be waiting for its object. */
    ghost predicate Owned()
      reads this
    {
      && (forall k :: k in profiles && profiles[k] != null ==> profiles[k] in repr)
      && (forall j, k :: j in profiles && k in profiles && j != k && profiles[j] == profiles[k] ==> profiles[j] == null)
    }

    ghost predicate Valid()
      reads this
    {
      Owned() && forall k :: k in profiles ==> profiles[k] != null
    }

    ghost function Live(): Cache<Stats>
      requires Owned()
      reads this, repr
    {
      map k | k in profiles && profiles[k] != null :: profiles[k].View()
    }

    ghost function Abs(): State
      requires Owned()
      reads this, repr
    {
      State(maxProfiles, Live(), totalSamples, batchesReceived, lruEvictions, created, evictedCalls)
    }

    /** Erases the profile with the smallest access time; entries still without an object are passed over. */
    method EvictLru() returns (ghost victim: Option<string>)
      requires Owned()
      modifies this`profiles, this`lruEvictions
      ensures Owned()
      ensures match victim
              case Some(k) => IsOldest(old(Live()), k) && profiles == old(profiles) - {k} && Live() == old(Live()) - {k}
              case None => profiles == old(profiles) && Live() == old(Live())
                           && forall k :: k in Live() ==> Live()[k].lastAccess >= MAX_TIME
      ensures lruEvictions == if victim.Some? then old(lruEvictions) + 1 else old(lruEvictions)
    {
      var lru: Option<string> := None;
      var oldestTime := MAX_TIME;
      var todo := profiles.Keys;
      ghost var live := Live();
      while todo != {}
        invariant todo <= profiles.Keys
        invariant match lru
                  case None => oldestTime == MAX_TIME
                  case Some(k) => k in live && live[k].lastAccess == oldestTime < MAX_TIME
        invariant forall k :: k in live && k !in todo ==> oldestTime <= live[k].lastAccess
      {
        var k :| k in todo;
        todo := todo - {k};
        var profile := profiles[k];
        if profile != null {
          if profile.lastAccess < oldestTime {
            oldestTime := profile.lastAccess;
            lru := Some(k);
          }
        }
      }
      victim := lru;
      if lru.Some? {
        profiles := profiles - {lru.value};
        lruEvictions := lruEvictions + 1;
      }
    }

    method Insert(name: string) returns (profile: ProfileData)
      requires Owned() && (name in profiles ==> profiles[name] == null)
      modifies this`profiles, this`repr
      ensures Owned() && fresh(profile) && repr == old(repr) + {profile}
      ensures profiles == old(profiles)[name := profile]
      ensures Live() == old(Live())[name := Slot(EMPTY, 0)]
    {
      profile := new ProfileData();
      profiles := profiles[name := profile];
      repr := repr + {profile};
    }

    /** The new name enters the map, still without an object. */
    method Reserve(name: string)
      requires Valid() && name !in profiles
      modifies this`profiles
      ensures Owned() && profiles == old(profiles)[name := null] && Live() == old(Live())
      ensures |profiles| == |Live()| + 1
    {
      ghost var before := Live();
      profiles := profiles[name := null];
      assert Live() == before;
      assert profiles.Keys == before.Keys + {name};
    }

    method MakeRoom(name: string) returns (ghost victim: Option<string>)
      requires Owned() && name in profiles && profiles[name] == null && name !in Live()
      requires |profiles| == |Live()| + 1
      modifies this`profiles, this`lruEvictions
      ensures Owned() && name in profiles && profiles[name] == null
      ensures forall k :: k in profiles ==> k in old(profiles) && profiles[k] == old(profiles)[k]
      ensures Evicts(maxProfiles, old(Live()), name, victim)
      ensures Live() == match victim case Some(k) => old(Live()) - {k} case None => old(Live())
      ensures lruEvictions == if victim.Some? then old(lruEvictions) + 1 else old(lruEvictions)
    {
      victim := None;
      if |profiles| >= maxProfiles {
        victim := EvictLru();
      }
    }

    /** The path under the exclusive lock: the new name enters the map before the size is tested. */
    method Create(name: string) returns (profile: ProfileData, ghost victim: Option<string>)
      requires Valid() && name !in profiles
      modifies this`profiles, this`lruEvictions, this`repr
      ensures Valid() && fresh(profile) && repr == old(repr) + {profile}
      ensures name in profiles && profiles[name] == profile
      ensures Evicts(maxProfiles, old(Live()), name, victim)
      ensures Abs() == old(Abs()).(cache := Admit(old(Live()), name, victim),
                                   evictions := if victim.Some? then old(lruEvictions) + 1 else old(lruEvictions))
    {
      Reserve(name);
      victim := MakeRoom(name);
      profile := Insert(name);
    }

    method FindOrCreate(name: string) returns (profile: ProfileData, ghost victim: Option<string>)
      requires Valid()
      modifies this`profiles, this`lruEvictions, this`created, this`evictedCalls, this`repr
      ensures Valid() && name in profiles && profiles[name] == profile
      ensures old(repr) <= repr && fresh(repr - old(repr))
      ensures Evicts(maxProfiles, old(Live()), name, victim)
      ensures Abs() == Found(old(Abs()), name, victim)
    {
      if name in profiles {
        profile, victim := profiles[name], None;
      } else {
        ghost var before := Live();
        profile, victim := Create(name);
        CountCreated(EvictedCalls(before, victim));
      }
    }

    ghost method CountCreated(lostCalls: nat)
      requires Valid()
      modifies this`created, this`evictedCalls
      ensures Abs() == old(Abs()).(created := old(created) + 1, evictedCalls := old(evictedCalls) + lostCalls)
    {
      created := created + 1;
      evictedCalls := evictedCalls + lostCalls;
    }

    method Touch(name: string, profile: ProfileData, sample: Sample, now: int)
      requires Valid() && name in profiles && profiles[name] == profile
      modifies profile
      ensures Abs()
           == old(Abs()).(cache := old(Live())[name := Slot(AddSample(old(Live())[name].value, sample), now)])
    {
      profile.Aggregate(sample, now);
      assert Live() == old(Live())[name := Slot(AddSample(old(Live())[name].value, sample), now)];
    }

    method ProcessSample(sample: Sample, now: int)
      requires Valid()
      modifies this, repr
      ensures Valid() && old(repr) <= repr && fresh(repr - old(repr))
      ensures ProcessStep(old(Abs()), sample, now, Abs())
    {
      ghost var before := Abs();
      var profile, victim := FindOrCreate(sample.name);
      FoundThenTouched(before, sample, now, victim);
      Touch(sample.name, profile, sample, now);
    }

    method ReceiveSamples(samples: seq<Sample>, times: seq<int>)
      requires Valid() && |samples| == |times|
      modifies this, repr
      ensures Valid() && old(repr) <= repr && fresh(repr - old(repr))
      ensures ReceiveBatch(old(Abs()), samples, times, Abs())
    {
      if samples == [] {
        return;
      }
      batchesReceived := batchesReceived + 1;
      totalSamples := totalSamples + |samples|;
      assert Abs() == old(Abs()).(batches := old(batchesReceived) + 1, totalSamples := old(totalSamples) + |samples|);
      ProcessEach(samples, times);
    }

    method ProcessEach(samples: seq<Sample>, times: seq<int>)
      requires Valid() && |samples| == |times|
      modifies this, repr
      ensures Valid() && old(repr) <= repr && fresh(repr - old(repr))
      ensures ProcessAll(old(Abs()), samples, times, Abs())
    {
      for i := 0 to |samples|
        invariant Valid() && old(repr) <= repr && fresh(repr - old(repr))
        invariant ProcessAll(old(Abs()), samples[..i], times[..i], Abs())
      {
        ghost var mid := Abs();
        ProcessSample(samples[i], times[i]);
        ExtendRun(old(Abs()), samples, times, i, mid, Abs());
      }
      assert samples[..|samples|] == samples && times[..|times|] == times;
    }

    method GetProfile(name: string) returns (r: Option<Stats>)
      requires Valid()
      ensures r == if name in Abs().cache then Some(Abs().cache[name].value) else None
    {
      if name in profiles {
        return Some(profiles[name].Profile());
      }
      return None;
    }

    method Clear()
      modifies this
      ensures Valid() && repr == old(repr)
      ensures Abs() == Initial(maxProfiles)
    {
      profiles := map[];
      totalSamples, batchesReceived, lruEvictions := 0, 0, 0;
      created, evictedCalls := 0, 0;
    }
  }
}
