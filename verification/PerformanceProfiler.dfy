/** The performance profiler: per-operation counters with a sliding window of durations, in an LRU table. */
module PerformanceProfilers {
  import opened Options
  import opened Folding
  import opened LruCache
  import opened ProfileStats

  datatype Window = Window(samples: seq<Nanos>, calls: nat, errors: nat)

  const EMPTY_WINDOW: Window := Window([], 0, 0)

  datatype Op =
    | Observe(name: string, duration: Nanos, success: bool, now: int)
    | Read(name: string, now: int)
    | ClearOne(name: string)
    | ClearAll
    | SetEnabled(on: bool)

  datatype Profiler = Profiler(limit: nat, maxSamples: nat, enabled: bool, cache: Cache<Window>)

  /** Recording one duration: the oldest one leaves a full window. */
  function Push(maxSamples: nat, duration: Nanos, success: bool): Window -> Window
    requires maxSamples >= 1
  {
    (w: Window) =>
      Window((if |w.samples| >= maxSamples then w.samples[1..] else w.samples) + [duration],
             w.calls + 1, if success then w.errors else w.errors + 1)
  }

  function Emptied(m: Cache<Window>): Cache<Window> {
    map k | k in m :: Slot(EMPTY_WINDOW, m[k].lastAccess)
  }

  function Touched(m: Cache<Window>, name: string, now: int): Cache<Window> {
    if name in m then m[name := Slot(m[name].value, now)] else m
  }

  ghost predicate Step(p: Profiler, op: Op, p': Profiler)
    requires p.maxSamples >= 1
  {
    match op
    case Observe(name, duration, success, now) =>
      if !p.enabled then p' == p
      else exists victim :: Sampled(p, op, victim, p')
    case Read(name, now) => p' == p.(cache := Touched(p.cache, name, now))
    case ClearOne(name) =>
      p' == p.(cache := if name in p.cache then p.cache[name := Slot(EMPTY_WINDOW, p.cache[name].lastAccess)]
                        else p.cache)
    case ClearAll => p' == p.(cache := Emptied(p.cache))
    case SetEnabled(on) => p' == p.(enabled := on)
  }

  ghost predicate Sampled(p: Profiler, op: Op, victim: Option<string>, p': Profiler)
    requires p.maxSamples >= 1 && op.Observe?
  {
    && Evicts(p.limit, p.cache, op.name, victim)
    && p' == p.(cache := Access(p.cache, op.name, EMPTY_WINDOW,
                               Push(p.maxSamples, op.duration, op.success), op.now, victim))
  }

  // ---------- the profiler as an object ----------

  class PerformanceProfiler {
    const maxProfiles: nat
    const maxSamples: nat
    var enabled: bool
    var profiles: map<string, Slot<Window>>

    constructor (maxProfiles: nat, maxSamples: nat)
      ensures Abs() == Profiler(maxProfiles, maxSamples, true, map[])
    {
      this.maxProfiles, this.maxSamples := maxProfiles, maxSamples;
      enabled, profiles := true, map[];
    }

    ghost function Abs(): Profiler
      reads this
    {
      Profiler(maxProfiles, maxSamples, enabled, profiles)
    }

    /** The search written out in the recording path: the smallest access time over the stored profiles. */
    method OldestProfile() returns (lru: Option<string>)
      ensures match lru
              case Some(k) => IsOldest(profiles, k)
              case None => forall k :: k in profiles ==> profiles[k].lastAccess >= MAX_TIME
    {
      lru := None;
      var oldestTime := MAX_TIME;
      var todo := profiles.Keys;
      while todo != {}
        invariant todo <= profiles.Keys
        invariant match lru
                  case None => oldestTime == MAX_TIME
                  case Some(k) => k in profiles && profiles[k].lastAccess == oldestTime < MAX_TIME
        invariant forall k :: k in profiles && k !in todo ==> oldestTime <= profiles[k].lastAccess
      {
        var k :| k in todo;
        todo := todo - {k};
        if profiles[k].lastAccess < oldestTime {
          oldestTime := profiles[k].lastAccess;
          lru := Some(k);
        }
      }
    }

    /** Room made and an empty profile entered for a new name, which counts in the size test. */
    method Admit(name: string, now: int) returns (ghost victim: Option<string>)
      requires name !in profiles
      modifies this`profiles
      ensures Evicts(maxProfiles, old(profiles), name, victim)
      ensures profiles
           == (match victim case Some(k) => old(profiles) - {k} case None => old(profiles))
              [name := Slot(EMPTY_WINDOW, now)]
    {
      victim := None;
      if |profiles| + 1 >= maxProfiles {
        var lru := OldestProfile();
        victim := lru;
        if lru.Some? {
          profiles := profiles - {lru.value};
        }
      }
      profiles := profiles[name := Slot(EMPTY_WINDOW, now)];
    }

    method RecordSample(name: string, duration: Nanos, success: bool, now: int)
      requires maxSamples >= 1
      modifies this
      ensures Step(old(Abs()), Observe(name, duration, success, now), Abs())
    {
      if !enabled {
        return;
      }
      ghost var victim: Option<string> := None;
      ghost var before := Abs();
      if name !in profiles {
        victim := Admit(name, now);
      }
      var w := profiles[name].value;
      var samples := w.samples;
      if |samples| >= maxSamples {
        samples := samples[1..];
      }
      samples := samples + [duration];
      profiles := profiles[name := Slot(Window(samples, w.calls + 1, if success then w.errors else w.errors + 1), now)];
      assert Sampled(before, Observe(name, duration, success, now), victim, Abs());
    }

    /** The figures derived from the window are not modelled; the window itself is returned. */
    method GetMetrics(name: string, now: int) returns (r: Option<Window>)
      requires maxSamples >= 1
      modifies this`profiles
      ensures Step(old(Abs()), Read(name, now), Abs())
      ensures r == if name in old(profiles) then Some(old(profiles)[name].value) else None
    {
      if name !in profiles {
        return None;
      }
      profiles := profiles[name := Slot(profiles[name].value, now)];
      return Some(profiles[name].value);
    }

    method ClearSamples(name: string)
      requires maxSamples >= 1
      modifies this`profiles
      ensures Step(old(Abs()), ClearOne(name), Abs())
    {
      if name in profiles {
        profiles := profiles[name := Slot(EMPTY_WINDOW, profiles[name].lastAccess)];
      }
    }

    method ClearAllSamples()
      requires maxSamples >= 1
      modifies this`profiles
      ensures Step(old(Abs()), ClearAll, Abs())
    {
      var todo := profiles.Keys;
      while todo != {}
        invariant todo <= profiles.Keys == old(profiles).Keys
        invariant forall k :: k in profiles ==>
                    profiles[k] == if k in todo then old(profiles)[k]
                                   else Slot(EMPTY_WINDOW, old(profiles)[k].lastAccess)
      {
        var k :| k in todo;
        todo := todo - {k};
        profiles := profiles[k := Slot(EMPTY_WINDOW, profiles[k].lastAccess)];
      }
      assert profiles == Emptied(old(profiles));
    }

    method SetProfiling(on: bool)
      requires maxSamples >= 1
      modifies this`enabled
      ensures Step(old(Abs()), SetEnabled(on), Abs())
    {
      enabled := on;
    }
  }

  // ---------- windows and counters over whole runs ----------

  /** states[i] is the profiler before ops[i]; it starts empty. */
  ghost predicate Run(states: seq<Profiler>, ops: seq<Op>) {
    && |states| == |ops| + 1
    && states[0].maxSamples >= 1 && states[0].cache == map[]
    && (forall i :: 0 <= i < |states| ==>
          states[i].maxSamples == states[0].maxSamples && states[i].limit == states[0].limit)
    && forall i :: 0 <= i < |ops| ==> Step(states[i], ops[i], states[i + 1])
  }

  type Recorded = (Nanos, bool)

  /** The records of `name` after one more call. */
  function Grown(enabled: bool, op: Op, name: string, before: seq<Recorded>): seq<Recorded> {
    match op
    case Observe(n, duration, success, _) =>
      if n == name && enabled then before + [(duration, success)] else before
    case ClearOne(n) => if n == name then [] else before
    case ClearAll => []
    case _ => before
  }

  /** The durations (with outcomes) recorded for `name` since its profile was created or cleared. */
  ghost function Since(states: seq<Profiler>, ops: seq<Op>, i: nat, name: string): seq<Recorded>
    requires i <= |ops| && |states| == |ops| + 1
  {
    if i == 0 || name !in states[i].cache then []
    else
      var before := if name in states[i - 1].cache then Since(states, ops, i - 1, name) else [];
      Grown(states[i - 1].enabled, ops[i - 1], name, before)
  }

  function Durations(rs: seq<Recorded>): (r: seq<Nanos>)
    ensures |r| == |rs|
  {
    seq(|rs|, i requires 0 <= i < |rs| => rs[i].0)
  }

  function IsFailure(): Recorded -> bool {
    (r: Recorded) => !r.1
  }

  ghost predicate WindowOf(w: Window, maxSamples: nat, recorded: seq<Recorded>) {
    && w.samples == Last(Durations(recorded), maxSamples)
    && w.calls == |recorded|
    && w.errors == |Filter(IsFailure(), recorded)|
  }

  lemma WindowSlides(xs: seq<Nanos>, x: Nanos, n: nat)
    requires n >= 1
    ensures var w := Last(xs, n);
            Last(xs + [x], n) == (if |w| >= n then w[1..] else w) + [x]
  {
  }

  lemma DurationsAppend(recorded: seq<Recorded>, r: Recorded)
    ensures Durations(recorded + [r]) == Durations(recorded) + [r.0]
  {
  }

  lemma PushKeepsWindow(w: Window, maxSamples: nat, recorded: seq<Recorded>, duration: Nanos, success: bool)
    requires maxSamples >= 1 && WindowOf(w, maxSamples, recorded)
    ensures WindowOf(Push(maxSamples, duration, success)(w), maxSamples, recorded + [(duration, success)])
  {
    WindowSlides(Durations(recorded), duration, maxSamples);
    DurationsAppend(recorded, (duration, success));
    FilterAppend(IsFailure(), recorded, (duration, success));
  }

  lemma NothingRecorded(maxSamples: nat)
    ensures WindowOf(EMPTY_WINDOW, maxSamples, [])
  {
    assert Durations([]) == [];
  }

  /** The window of a name that has none yet is the empty one. */
  function WindowIn(m: Cache<Window>, name: string): Window {
    if name in m then m[name].value else EMPTY_WINDOW
  }

  lemma SampledWindow(p: Profiler, op: Op, p': Profiler, name: string)
    requires p.maxSamples >= 1 && op.Observe? && p.enabled && Step(p, op, p') && name in p'.cache
    ensures if name == op.name
            then p'.cache[name].value == Push(p.maxSamples, op.duration, op.success)(WindowIn(p.cache, name))
            else name in p.cache && p'.cache[name] == p.cache[name]
  {
    var victim :| Sampled(p, op, victim, p');
  }

  lemma SampledKeepsWindow(p: Profiler, op: Op, p': Profiler, name: string, before: seq<Recorded>)
    requires p.maxSamples >= 1 && op.Observe? && p.enabled && Step(p, op, p') && name in p'.cache
    requires WindowOf(WindowIn(p.cache, name), p.maxSamples, before)
    ensures WindowOf(p'.cache[name].value, p.maxSamples, Grown(true, op, name, before))
  {
    SampledWindow(p, op, p', name);
    if name == op.name {
      PushKeepsWindow(WindowIn(p.cache, name), p.maxSamples, before, op.duration, op.success);
    }
  }

  lemma StepKeepsWindow(p: Profiler, op: Op, p': Profiler, name: string, before: seq<Recorded>)
    requires p.maxSamples >= 1 && Step(p, op, p') && name in p'.cache
    requires WindowOf(WindowIn(p.cache, name), p.maxSamples, before)
    ensures WindowOf(p'.cache[name].value, p.maxSamples, Grown(p.enabled, op, name, before))
  {
    NothingRecorded(p.maxSamples);
    if op.Observe? && p.enabled {
      SampledKeepsWindow(p, op, p', name, before);
    }
  }

  lemma {:induction false} WindowSince(states: seq<Profiler>, ops: seq<Op>, i: nat, name: string)
    requires Run(states, ops) && i <= |ops| && name in states[i].cache
    ensures WindowOf(states[i].cache[name].value, states[0].maxSamples, Since(states, ops, i, name))
  {
    if i == 0 {
    } else {
      var before := if name in states[i - 1].cache then Since(states, ops, i - 1, name) else [];
      if name in states[i - 1].cache {
        WindowSince(states, ops, i - 1, name);
      } else {
        NothingRecorded(states[0].maxSamples);
      }
      assert Step(states[i - 1], ops[i - 1], states[i - 1 + 1]);
      StepKeepsWindow(states[i - 1], ops[i - 1], states[i], name, before);
    }
  }

  /**
    In every state of every run, a stored operation's window is exactly the last durations (as many as
    fit) recorded since its profile was created or cleared, and its counters count those records.
   */
  lemma WindowMatchesCounters(states: seq<Profiler>, ops: seq<Op>, i: nat, name: string)
    requires Run(states, ops) && i <= |ops| && name in states[i].cache
    ensures var w := states[i].cache[name].value; var max := states[0].maxSamples;
      && WindowOf(w, max, Since(states, ops, i, name))
      && |w.samples| == (if w.calls <= max then w.calls else max)
      && w.errors <= w.calls
  {
    WindowSince(states, ops, i, name);
    FilterAll(IsFailure(), Since(states, ops, i, name));
  }

  // ---------- least recently used, with reads counting as uses ----------

  /** The clockless profiler: profiles in order of use, and the uses so far. */
  datatype Simple = Simple(enabled: bool, items: seq<Item<Window>>, uses: seq<string>)

  function Id(): Window -> Window {
    (w: Window) => w
  }

  function ClearItem(item: Item<Window>): Item<Window> {
    Item(item.name, EMPTY_WINDOW)
  }

  function SimpleStep(limit: nat, maxSamples: nat, s: Simple, op: Op): Simple
    requires maxSamples >= 1
  {
    var cap := Capacity(limit);
    match op
    case Observe(name, duration, success, _) =>
      if !s.enabled then s
      else s.(items := Promote(cap, s.items, name, EMPTY_WINDOW, Push(maxSamples, duration, success)),
              uses := s.uses + [name])
    case Read(name, _) =>
      if name !in Names(s.items) then s
      else s.(items := Promote(cap, s.items, name, EMPTY_WINDOW, Id()), uses := s.uses + [name])
    case ClearOne(name) =>
      var i := IndexOf(Names(s.items), name);
      if i < |s.items| then s.(items := s.items[i := ClearItem(s.items[i])]) else s
    case ClearAll => s.(items := ClearItems(s.items))
    case SetEnabled(on) => s.(enabled := on)
  }

  function SimpleRun(limit: nat, maxSamples: nat, enabled: bool, ops: seq<Op>): Simple
    requires maxSamples >= 1
  {
    if ops == [] then Simple(enabled, [], [])
    else SimpleStep(limit, maxSamples, SimpleRun(limit, maxSamples, enabled, ops[..|ops| - 1]), ops[|ops| - 1])
  }

  predicate Timed(op: Op) {
    op.Observe? || op.Read?
  }

  /** Clock readings increase along the run and fit 64 bits. */
  ghost predicate Ticking(ops: seq<Op>) {
    && (forall i, j :: 0 <= i < j < |ops| && Timed(ops[i]) && Timed(ops[j]) ==> ops[i].now < ops[j].now)
    && (forall i :: 0 <= i < |ops| && Timed(ops[i]) ==> ops[i].now < MAX_TIME)
  }

  ghost predicate Later(m: Cache<Window>, ops: seq<Op>) {
    forall k :: k in m ==> exists i :: 0 <= i < |ops| && Timed(ops[i]) && m[k].lastAccess == ops[i].now
  }

  ghost predicate Mirrors(p: Profiler, s: Simple) {
    && p.enabled == s.enabled
    && Represents(p.cache, s.items)
    && |s.items| <= Capacity(p.limit)
    && Names(s.items) == Take(ByRecency(s.uses), Capacity(p.limit))
  }

  lemma SampleMirrors(p: Profiler, s: Simple, op: Op, p': Profiler)
    requires p.maxSamples >= 1 && Mirrors(p, s) && op.Observe? && p.enabled
    requires StampsBelow(p.cache, op.now) && op.now <= MAX_TIME && Step(p, op, p')
    ensures Mirrors(p', SimpleStep(p.limit, p.maxSamples, s, op))
  {
    var victim :| Sampled(p, op, victim, p');
    var push := Push(p.maxSamples, op.duration, op.success);
    AccessRefinesPromote(p.limit, p.cache, s.items, op.name, EMPTY_WINDOW, push, op.now, victim);
    PromoteFollowsRecency(Capacity(p.limit), s.items, s.uses, op.name, EMPTY_WINDOW, push);
  }

  lemma ReadMirrors(p: Profiler, s: Simple, op: Op, p': Profiler)
    requires p.maxSamples >= 1 && Mirrors(p, s) && op.Read?
    requires StampsBelow(p.cache, op.now) && op.now <= MAX_TIME && Step(p, op, p')
    ensures Mirrors(p', SimpleStep(p.limit, p.maxSamples, s, op))
  {
    if op.name in p.cache {
      assert op.name in Names(s.items);
      AccessRefinesPromote(p.limit, p.cache, s.items, op.name, EMPTY_WINDOW, Id(), op.now, None);
      PromoteFollowsRecency(Capacity(p.limit), s.items, s.uses, op.name, EMPTY_WINDOW, Id());
    }
  }

  lemma ClearItemRepresents(m: Cache<Window>, l: seq<Item<Window>>, i: nat)
    requires Represents(m, l) && i < |l|
    ensures Names(l[i := ClearItem(l[i])]) == Names(l)
    ensures Represents(m[l[i].name := Slot(EMPTY_WINDOW, m[l[i].name].lastAccess)], l[i := ClearItem(l[i])])
  {
    RepresentsSize(m, l);
    assert Names(l[i := ClearItem(l[i])]) == Names(l);
    forall j | 0 <= j < |l| && j != i ensures l[j].name != l[i].name {
      assert Names(l)[j] != Names(l)[i];
    }
  }

  lemma ClearOneMirrors(p: Profiler, s: Simple, op: Op, p': Profiler)
    requires p.maxSamples >= 1 && Mirrors(p, s) && op.ClearOne? && Step(p, op, p')
    ensures Mirrors(p', SimpleStep(p.limit, p.maxSamples, s, op))
  {
    var i := IndexOf(Names(s.items), op.name);
    if i < |s.items| {
      ClearItemRepresents(p.cache, s.items, i);
    }
  }

  function ClearItems(l: seq<Item<Window>>): (r: seq<Item<Window>>)
    ensures |r| == |l|
  {
    seq(|l|, i requires 0 <= i < |l| => ClearItem(l[i]))
  }

  lemma ClearItemsRepresents(m: Cache<Window>, l: seq<Item<Window>>)
    requires Represents(m, l)
    ensures Names(ClearItems(l)) == Names(l) && Represents(Emptied(m), ClearItems(l))
  {
    assert Names(ClearItems(l)) == Names(l);
    assert Emptied(m).Keys == m.Keys;
  }

  lemma ClearAllMirrors(p: Profiler, s: Simple, op: Op, p': Profiler)
    requires p.maxSamples >= 1 && Mirrors(p, s) && op.ClearAll? && Step(p, op, p')
    ensures Mirrors(p', SimpleStep(p.limit, p.maxSamples, s, op))
  {
    ClearItemsRepresents(p.cache, s.items);
  }

  lemma StampsFromRun(p: Profiler, ops: seq<Op>, op: Op, p': Profiler)
    requires p.maxSamples >= 1 && Later(p.cache, ops) && Step(p, op, p')
    ensures Later(p'.cache, ops + [op])
  {
    var all := ops + [op];
    assert all[|ops|] == op;
    forall k | k in p'.cache
      ensures exists i :: 0 <= i < |all| && Timed(all[i]) && p'.cache[k].lastAccess == all[i].now
    {
      if k in p.cache && p'.cache[k].lastAccess == p.cache[k].lastAccess {
        var i :| 0 <= i < |ops| && Timed(ops[i]) && p.cache[k].lastAccess == ops[i].now;
        assert all[i] == ops[i];
      } else {
        assert Timed(op) && p'.cache[k].lastAccess == all[|ops|].now;
      }
    }
  }

  lemma MirrorsStep(p: Profiler, s: Simple, ops: seq<Op>, op: Op, p': Profiler)
    requires p.maxSamples >= 1 && Mirrors(p, s) && Later(p.cache, ops) && Step(p, op, p') && Ticking(ops + [op])
    ensures Mirrors(p', SimpleStep(p.limit, p.maxSamples, s, op)) && Later(p'.cache, ops + [op])
  {
    StampsFromRun(p, ops, op, p');
    if Timed(op) {
      forall k | k in p.cache ensures p.cache[k].lastAccess < op.now {
        var i :| 0 <= i < |ops| && Timed(ops[i]) && p.cache[k].lastAccess == ops[i].now;
        assert (ops + [op])[i] == ops[i] && (ops + [op])[|ops|] == op;
      }
      assert (ops + [op])[|ops|] == op;
    }
    match op {
      case Observe(_, _, _, _) => if p.enabled { SampleMirrors(p, s, op, p'); }
      case Read(_, _) => ReadMirrors(p, s, op, p');
      case ClearOne(_) => ClearOneMirrors(p, s, op, p');
      case ClearAll => ClearAllMirrors(p, s, op, p');
      case SetEnabled(_) =>
    }
  }

  lemma MirrorsKeepsMostRecent(p: Profiler, s: Simple)
    requires Mirrors(p, s)
    ensures |p.cache| <= Capacity(p.limit)
    ensures forall name :: name in p.cache <==> AmongMostRecent(s.uses, Capacity(p.limit), name)
  {
    RepresentsSize(p.cache, s.items);
    forall name ensures name in p.cache <==> AmongMostRecent(s.uses, Capacity(p.limit), name) {
      RecencyPrefix(s.uses, Capacity(p.limit), name);
    }
  }

  ghost function SimpleAt(states: seq<Profiler>, ops: seq<Op>, i: nat): Simple
    requires Run(states, ops) && i <= |ops|
  {
    SimpleRun(states[0].limit, states[0].maxSamples, states[0].enabled, ops[..i])
  }

  lemma {:induction false} RunMirrors(states: seq<Profiler>, ops: seq<Op>, i: nat)
    requires Run(states, ops) && Ticking(ops) && i <= |ops|
    ensures Mirrors(states[i], SimpleAt(states, ops, i)) && Later(states[i].cache, ops[..i])
  {
    if i == 0 {
      assert Names(SimpleAt(states, ops, 0).items) == [];
    } else {
      RunMirrors(states, ops, i - 1);
      assert ops[..i][..i - 1] == ops[..i - 1] && ops[..i] == ops[..i - 1] + [ops[i - 1]];
      MirrorsStep(states[i - 1], SimpleAt(states, ops, i - 1), ops[..i - 1], ops[i - 1], states[i]);
    }
  }

  /** The names used by the first i calls: recorded while enabled, or read while stored. */
  function UsedNames(states: seq<Profiler>, ops: seq<Op>, i: nat): seq<string>
    requires i <= |ops| && |states| == |ops| + 1
  {
    if i == 0 then []
    else
      var before := UsedNames(states, ops, i - 1);
      match ops[i - 1]
      case Observe(name, _, _, _) => if states[i - 1].enabled then before + [name] else before
      case Read(name, _) => if name in states[i - 1].cache then before + [name] else before
      case _ => before
  }

  lemma NamesStored(p: Profiler, s: Simple, name: string)
    requires Mirrors(p, s)
    ensures name in Names(s.items) <==> name in p.cache
  {
  }

  lemma StepUses(p: Profiler, s: Simple, op: Op)
    requires p.maxSamples >= 1 && Mirrors(p, s)
    ensures SimpleStep(p.limit, p.maxSamples, s, op).uses
         == if op.Observe? && p.enabled then s.uses + [op.name]
            else if op.Read? && op.name in p.cache then s.uses + [op.name] else s.uses
  {
    if op.Read? {
      NamesStored(p, s, op.name);
    }
  }

  lemma SimpleAtNext(states: seq<Profiler>, ops: seq<Op>, i: nat)
    requires Run(states, ops) && 0 < i <= |ops|
    ensures SimpleAt(states, ops, i)
         == SimpleStep(states[i - 1].limit, states[i - 1].maxSamples, SimpleAt(states, ops, i - 1), ops[i - 1])
  {
    assert ops[..i][..i - 1] == ops[..i - 1];
  }

  lemma {:induction false} UsesFollowCalls(states: seq<Profiler>, ops: seq<Op>, i: nat)
    requires Run(states, ops) && Ticking(ops) && i <= |ops|
    ensures SimpleAt(states, ops, i).uses == UsedNames(states, ops, i)
  {
    if i == 0 {
    } else {
      UsesFollowCalls(states, ops, i - 1);
      RunMirrors(states, ops, i - 1);
      SimpleAtNext(states, ops, i);
      StepUses(states[i - 1], SimpleAt(states, ops, i - 1), ops[i - 1]);
    }
  }

  /**
    With a strictly increasing clock the stored operations are the most recently used ones, as many as fit;
    a read of a stored operation is a use.
   */
  lemma ReadsKeepProfilesAlive(states: seq<Profiler>, ops: seq<Op>, i: nat, name: string)
    requires Run(states, ops) && Ticking(ops) && i <= |ops|
    ensures Represents(states[i].cache, SimpleAt(states, ops, i).items)
    ensures var kept := if states[0].limit <= 2 then 1 else states[0].limit - 1;
      && (name in states[i].cache <==> AmongMostRecent(UsedNames(states, ops, i), kept, name))
      && |states[i].cache| <= kept
  {
    RunMirrors(states, ops, i);
    UsesFollowCalls(states, ops, i);
    MirrorsKeepsMostRecent(states[i], SimpleAt(states, ops, i));
  }

  // ---------- access times and clearing ----------

  /** The time of the latest of the first i calls that recorded the name while enabled, or read it. */
  function LatestUse(states: seq<Profiler>, ops: seq<Op>, i: nat, name: string): Option<int>
    requires i <= |ops| && |states| == |ops| + 1
  {
    if i == 0 then None
    else
      var before := LatestUse(states, ops, i - 1, name);
      match ops[i - 1]
      case Observe(n, _, _, now) => if n == name && states[i - 1].enabled then Some(now) else before
      case Read(n, now) => if n == name then Some(now) else before
      case _ => before
  }

  lemma StepStamps(p: Profiler, op: Op, p': Profiler, name: string)
    requires p.maxSamples >= 1 && Step(p, op, p') && name in p'.cache
    ensures if ((op.Observe? && p.enabled) || op.Read?) && op.name == name then p'.cache[name].lastAccess == op.now
            else name in p.cache && p'.cache[name].lastAccess == p.cache[name].lastAccess
  {
    if op.Observe? && p.enabled {
      var victim :| Sampled(p, op, victim, p');
    }
  }

  /** At any clock readings, the access time of a stored operation is that of its latest use. */
  lemma {:induction false} StampIsLatestUse(states: seq<Profiler>, ops: seq<Op>, i: nat, name: string)
    requires Run(states, ops) && i <= |ops| && name in states[i].cache
    ensures LatestUse(states, ops, i, name) == Some(states[i].cache[name].lastAccess)
  {
    if i == 0 {
    } else {
      assert Step(states[i - 1], ops[i - 1], states[i - 1 + 1]);
      StepStamps(states[i - 1], ops[i - 1], states[i], name);
      if name in states[i - 1].cache {
        StampIsLatestUse(states, ops, i - 1, name);
      }
    }
  }

  /** Clearing empties the window and counters of the operations it is for, and changes nothing else. */
  lemma ClearingEmpties(states: seq<Profiler>, ops: seq<Op>, i: nat, name: string)
    requires Run(states, ops) && i < |ops| && (ops[i].ClearOne? || ops[i].ClearAll?)
    ensures var p, p' := states[i], states[i + 1];
      && (name in p'.cache <==> name in p.cache)
      && (name in p.cache ==>
            p'.cache[name] == if ops[i].ClearAll? || ops[i].name == name
                              then Slot(Window([], 0, 0), p.cache[name].lastAccess) else p.cache[name])
  {
    assert Step(states[i], ops[i], states[i + 1]);
  }
}
