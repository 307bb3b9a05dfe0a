/**
  Threads processing samples concurrently: each sample takes a lookup under the shared lock, possibly
  a creation under the exclusive lock, a store of the access time, and an update under the profile's own
  lock.  Every one of these is a separate step here, and threads may interleave in any way.
 */
module DoubleCheckedCreation {
  import opened Options
  import opened Folding
  import opened LruCache
  import opened ProfileStats
  import opened CollectorRuns
  import opened Interleavings

  datatype Pc =
    | Ready              // before the lookup of the next sample
    | Missed             // the lookup found nothing
    | Holding(obj: nat)  // a profile pointer in hand, no lock held
    | Touched(obj: nat)  // the access time is stored

  datatype Thread = Thread(todo: seq<Sample>, pc: Pc)

  /** Profile objects live in `heap` and are named by their index; `log` records finished updates. */
  datatype System = System(limit: nat, names: map<string, nat>, heap: seq<Slot<Stats>>, threads: seq<Thread>,
                           log: seq<Tagged>)

  datatype Move = Lookup | Create(victim: Option<string>) | Touch(now: int) | Update

  function Table(s: System): Cache<Stats>
    requires forall n :: n in s.names ==> s.names[n] < |s.heap|
  {
    map n | n in s.names :: s.heap[s.names[n]]
  }

  ghost predicate WellFormed(s: System) {
    && (forall n :: n in s.names ==> s.names[n] < |s.heap|)
    && (forall t :: 0 <= t < |s.threads| && !s.threads[t].pc.Ready? ==> s.threads[t].todo != [])
    && (forall t :: 0 <= t < |s.threads| && (s.threads[t].pc.Holding? || s.threads[t].pc.Touched?) ==>
          s.threads[t].pc.obj < |s.heap|)
  }

  ghost predicate Enabled(s: System, t: nat, m: Move)
    requires WellFormed(s)
  {
    && t < |s.threads|
    && var th := s.threads[t];
       match m
       case Lookup => th.pc.Ready? && th.todo != []
       case Create(victim) => th.pc.Missed? && Evicts(s.limit, Table(s), th.todo[0].name, victim)
       case Touch(_) => th.pc.Holding?
       case Update => th.pc.Touched?
  }

  ghost function Apply(s: System, t: nat, m: Move): System
    requires WellFormed(s) && Enabled(s, t, m)
  {
    var th := s.threads[t];
    var x := th.todo[0];
    match m
    case Lookup =>
      s.(threads := s.threads[t := th.(pc := if x.name in s.names then Holding(s.names[x.name]) else Missed)])
    case Create(victim) =>
      if x.name in s.names then
        s.(threads := s.threads[t := th.(pc := Holding(s.names[x.name]))])
      else
        var kept := match victim case Some(k) => s.names - {k} case None => s.names;
        s.(names := kept[x.name := |s.heap|],
           heap := s.heap + [Slot(EMPTY, 0)],
           threads := s.threads[t := th.(pc := Holding(|s.heap|))])
    case Touch(now) =>
      s.(heap := s.heap[th.pc.obj := Slot(s.heap[th.pc.obj].value, now)],
         threads := s.threads[t := th.(pc := Touched(th.pc.obj))])
    case Update =>
      var slot := s.heap[th.pc.obj];
      s.(heap := s.heap[th.pc.obj := Slot(AddSample(slot.value, x), slot.lastAccess)],
         threads := s.threads[t := Thread(th.todo[1..], Ready)],
         log := s.log + [(t, x)])
  }

  function Start(limit: nat, programs: seq<seq<Sample>>): System {
    System(limit, map[], [], seq(|programs|, i requires 0 <= i < |programs| => Thread(programs[i], Ready)), [])
  }

  /** The system can get from s to s' by the scheduled moves. */
  ghost predicate Reaches(s: System, schedule: seq<(nat, Move)>, s': System) {
    if schedule == [] then s' == s
    else
      var n := |schedule| - 1;
      exists mid :: Reaches(s, schedule[..n], mid) && WellFormed(mid)
                    && Enabled(mid, schedule[n].0, schedule[n].1) && s' == Apply(mid, schedule[n].0, schedule[n].1)
  }

  // ---------- the invariant ----------

  /** The names the programs use; few enough for the collector to keep them all. */
  ghost predicate Fits(limit: nat, programs: seq<seq<Sample>>, all: set<string>) {
    && |all| <= Capacity(limit)
    && forall t, x :: 0 <= t < |programs| && x in programs[t] ==> x.name in all
  }

  /** Each name has one profile object and each object one name. */
  ghost predicate OneObjectPerName(s: System) {
    && (forall n :: n in s.names ==> s.names[n] < |s.heap|)
    && (forall n, n' :: n in s.names && n' in s.names && n != n' ==> s.names[n] != s.names[n'])
    && |s.heap| == |s.names|
  }

  /** Every pointer in a thread's hand is the one stored for the sample it is processing. */
  ghost predicate PointersStored(s: System) {
    forall t :: 0 <= t < |s.threads| ==>
      var th := s.threads[t];
      && (!th.pc.Ready? ==> th.todo != [])
      && (th.pc.Holding? || th.pc.Touched? ==> th.todo[0].name in s.names && s.names[th.todo[0].name] == th.pc.obj)
  }

  /** Stored aggregates summarize the finished updates. */
  ghost predicate AggregatesLog(s: System)
    requires OneObjectPerName(s)
  {
    && (forall n :: n in s.names ==> s.heap[s.names[n]].value == Summarize(Untag(s.log), n))
    && (forall e :: e in s.log ==> e.1.name in s.names)
  }

  /** Finished and remaining samples of each thread make up its program, in order. */
  ghost predicate Progress(s: System, programs: seq<seq<Sample>>) {
    && |s.threads| == |programs|
    && (forall t :: 0 <= t < |programs| ==> Filter(From(t), s.log) + Tag(t, s.threads[t].todo) == Tag(t, programs[t]))
    && (forall e :: e in s.log ==> e.0 < |programs|)
  }

  ghost predicate InHand(s: System, t: nat, n: string) {
    && t < |s.threads| && s.threads[t].todo != [] && s.threads[t].todo[0].name == n
    && (s.threads[t].pc.Holding? || s.threads[t].pc.Touched?)
  }

  /** A stored name was updated already, or is about to be by the thread that holds its profile. */
  ghost predicate NamesInUse(s: System) {
    forall n :: n in s.names ==> (exists e :: e in s.log && e.1.name == n) || (exists t :: InHand(s, t, n))
  }

  ghost predicate Inv(s: System, programs: seq<seq<Sample>>, all: set<string>) {
    && OneObjectPerName(s)
    && PointersStored(s)
    && AggregatesLog(s)
    && Progress(s, programs)
    && NamesInUse(s)
    && s.names.Keys <= all
  }

  lemma TodoInProgram(s: System, programs: seq<seq<Sample>>, t: nat)
    requires Progress(s, programs) && t < |programs| && s.threads[t].todo != []
    ensures s.threads[t].todo[0] in programs[t]
  {
    var front := Filter(From(t), s.log);
    assert (front + Tag(t, s.threads[t].todo))[|front|] == (t, s.threads[t].todo[0]);
    assert Tag(t, programs[t])[|front|] == (t, programs[t][|front|]);
  }

  /** With room for every name, creation never evicts. */
  lemma NoEviction(s: System, programs: seq<seq<Sample>>, all: set<string>, t: nat, victim: Option<string>)
    requires Inv(s, programs, all) && Fits(s.limit, programs, all)
    requires WellFormed(s) && Enabled(s, t, Create(victim)) && s.threads[t].todo[0].name !in s.names
    ensures victim == None && s.threads[t].todo[0].name in all
  {
    var name := s.threads[t].todo[0].name;
    TodoInProgram(s, programs, t);
    ProperSubsetSize(s.names.Keys, all, name);
    assert Table(s).Keys == s.names.Keys;
    RoomMeansNoVictim(s.limit, Table(s), name, victim);
  }

  lemma ProperSubsetSize<T>(a: set<T>, b: set<T>, x: T)
    requires a <= b && x in b && x !in a
    ensures |a| < |b|
  {
    SubsetSize(a + {x}, b);
  }

  /** A move keeps names in use if it keeps or logs the other threads' work. */
  lemma StillInUse(s: System, t: nat, s': System)
    requires NamesInUse(s) && |s'.threads| == |s.threads| && t < |s.threads|
    requires forall k :: 0 <= k < |s.threads| && k != t ==> s'.threads[k] == s.threads[k]
    requires forall e :: e in s.log ==> e in s'.log
    requires forall n :: n in s'.names && n !in s.names ==> InHand(s', t, n)
    requires forall n :: InHand(s, t, n) ==> InHand(s', t, n) || exists e :: e in s'.log && e.1.name == n
    ensures NamesInUse(s')
  {
    forall n | n in s'.names ensures (exists e :: e in s'.log && e.1.name == n) || exists k :: InHand(s', k, n) {
      if n in s.names {
        if e :| e in s.log && e.1.name == n {
          assert e in s'.log;
        } else {
          var k :| InHand(s, k, n);
          if k != t {
            assert InHand(s', k, n);
          }
        }
      }
    }
  }

  lemma LookupKeepsInv(s: System, programs: seq<seq<Sample>>, all: set<string>, t: nat)
    requires Inv(s, programs, all) && WellFormed(s) && Enabled(s, t, Lookup)
    ensures Inv(Apply(s, t, Lookup), programs, all)
  {
    StillInUse(s, t, Apply(s, t, Lookup));
  }

  /** Entering a profile for a new name. */
  ghost function Entered(s: System, t: nat): System
    requires WellFormed(s) && t < |s.threads| && s.threads[t].pc.Missed?
  {
    s.(names := s.names[s.threads[t].todo[0].name := |s.heap|],
       heap := s.heap + [Slot(EMPTY, 0)],
       threads := s.threads[t := s.threads[t].(pc := Holding(|s.heap|))])
  }

  lemma EnteredOneObject(s: System, t: nat)
    requires WellFormed(s) && t < |s.threads| && s.threads[t].pc.Missed? && s.threads[t].todo[0].name !in s.names
    requires OneObjectPerName(s)
    ensures OneObjectPerName(Entered(s, t))
  {
    assert Entered(s, t).names.Keys == s.names.Keys + {s.threads[t].todo[0].name};
  }

  lemma NotLogged(s: System, name: string)
    requires OneObjectPerName(s) && AggregatesLog(s) && name !in s.names
    ensures Summarize(Untag(s.log), name) == EMPTY
  {
    var xs := Untag(s.log);
    forall x | x in xs ensures x.name != name {
      var i :| 0 <= i < |xs| && xs[i] == x;
      assert s.log[i] in s.log;
    }
    NoneOfName(xs, name);
  }

  lemma EnteredAggregatesLog(s: System, t: nat)
    requires WellFormed(s) && t < |s.threads| && s.threads[t].pc.Missed? && s.threads[t].todo[0].name !in s.names
    requires OneObjectPerName(s) && AggregatesLog(s) && OneObjectPerName(Entered(s, t))
    ensures AggregatesLog(Entered(s, t))
  {
    NotLogged(s, s.threads[t].todo[0].name);
  }

  /** Thread t at another point of the same sample. */
  ghost function AtPc(s: System, t: nat, pc: Pc): System
    requires t < |s.threads|
  {
    s.(threads := s.threads[t := s.threads[t].(pc := pc)])
  }

  lemma PcProgress(s: System, programs: seq<seq<Sample>>, t: nat, pc: Pc)
    requires Progress(s, programs) && t < |s.threads|
    ensures Progress(AtPc(s, t, pc), programs)
  {
    forall k | 0 <= k < |s.threads| ensures AtPc(s, t, pc).threads[k].todo == s.threads[k].todo {
    }
  }

  lemma PcInUse(s: System, t: nat, pc: Pc)
    requires NamesInUse(s) && t < |s.threads|
    requires pc.Holding? || pc.Touched? || s.threads[t].pc.Ready? || s.threads[t].pc.Missed?
    ensures NamesInUse(AtPc(s, t, pc))
  {
    StillInUse(s, t, AtPc(s, t, pc));
  }

  /** Another thread created the profile between the lookup and the exclusive lock. */
  lemma TakesStored(s: System, programs: seq<seq<Sample>>, all: set<string>, t: nat)
    requires Inv(s, programs, all) && t < |s.threads| && s.threads[t].pc.Missed?
    requires s.threads[t].todo[0].name in s.names
    ensures Inv(AtPc(s, t, Holding(s.names[s.threads[t].todo[0].name])), programs, all)
  {
    var taken := Holding(s.names[s.threads[t].todo[0].name]);
    PcProgress(s, programs, t, taken);
    PcInUse(s, t, taken);
  }

  lemma CreateKeepsInv(s: System, programs: seq<seq<Sample>>, all: set<string>, t: nat, victim: Option<string>)
    requires Inv(s, programs, all) && Fits(s.limit, programs, all) && WellFormed(s) && Enabled(s, t, Create(victim))
    ensures Inv(Apply(s, t, Create(victim)), programs, all)
  {
    if s.threads[t].todo[0].name in s.names {
      TakesStored(s, programs, all, t);
    } else {
      NoEviction(s, programs, all, t, victim);
      EnteredKeepsInv(s, programs, all, t);
    }
  }

  lemma EnteredKeepsInv(s: System, programs: seq<seq<Sample>>, all: set<string>, t: nat)
    requires Inv(s, programs, all) && WellFormed(s) && t < |s.threads| && s.threads[t].pc.Missed?
    requires s.threads[t].todo[0].name !in s.names && s.threads[t].todo[0].name in all
    ensures Inv(Entered(s, t), programs, all)
  {
    StillInUse(s, t, Entered(s, t));
    EnteredOneObject(s, t);
    EnteredAggregatesLog(s, t);
    EnteredProgress(s, programs, all, t);
  }

  lemma EnteredProgress(s: System, programs: seq<seq<Sample>>, all: set<string>, t: nat)
    requires Inv(s, programs, all) && WellFormed(s) && t < |s.threads| && s.threads[t].pc.Missed?
    requires s.threads[t].todo[0].name !in s.names && s.threads[t].todo[0].name in all
    ensures Progress(Entered(s, t), programs) && PointersStored(Entered(s, t)) && Entered(s, t).names.Keys <= all
  {
    var s' := Entered(s, t);
    forall k | 0 <= k < |programs| ensures s'.threads[k].todo == s.threads[k].todo {
    }
  }

  /** A new access time for one profile. */
  ghost function Stamped(s: System, obj: nat, now: int): System
    requires obj < |s.heap|
  {
    s.(heap := s.heap[obj := Slot(s.heap[obj].value, now)])
  }

  lemma StampKeepsInv(s: System, programs: seq<seq<Sample>>, all: set<string>, obj: nat, now: int)
    requires Inv(s, programs, all) && obj < |s.heap|
    ensures Inv(Stamped(s, obj, now), programs, all)
  {
    assert forall t, n :: InHand(Stamped(s, obj, now), t, n) <==> InHand(s, t, n);
  }

  lemma TouchKeepsInv(s: System, programs: seq<seq<Sample>>, all: set<string>, t: nat, now: int)
    requires Inv(s, programs, all) && WellFormed(s) && Enabled(s, t, Touch(now))
    ensures Inv(Apply(s, t, Touch(now)), programs, all)
  {
    var obj := s.threads[t].pc.obj;
    StampKeepsInv(s, programs, all, obj, now);
    PcProgress(Stamped(s, obj, now), programs, t, Touched(obj));
    PcInUse(Stamped(s, obj, now), t, Touched(obj));
  }

  lemma UpdateKeepsInv(s: System, programs: seq<seq<Sample>>, all: set<string>, t: nat)
    requires Inv(s, programs, all) && WellFormed(s) && Enabled(s, t, Update)
    ensures Inv(Apply(s, t, Update), programs, all)
  {
    UpdateAggregatesLog(s, t);
    UpdateProgress(s, programs, t);
    UpdateInUse(s, t);
    UpdatePointers(s, t);
  }

  lemma UpdatePointers(s: System, t: nat)
    requires WellFormed(s) && Enabled(s, t, Update) && PointersStored(s)
    ensures PointersStored(Apply(s, t, Update))
  {
  }

  lemma UpdateInUse(s: System, t: nat)
    requires WellFormed(s) && Enabled(s, t, Update) && NamesInUse(s)
    ensures NamesInUse(Apply(s, t, Update))
  {
    var x := s.threads[t].todo[0];
    assert (t, x) in Apply(s, t, Update).log;
    StillInUse(s, t, Apply(s, t, Update));
  }

  lemma UpdateAggregatesLog(s: System, t: nat)
    requires WellFormed(s) && Enabled(s, t, Update)
    requires OneObjectPerName(s) && PointersStored(s) && AggregatesLog(s)
    ensures OneObjectPerName(Apply(s, t, Update)) && AggregatesLog(Apply(s, t, Update))
  {
    var x := s.threads[t].todo[0];
    var s' := Apply(s, t, Update);
    assert Untag(s'.log) == Untag(s.log) + [x];
    forall n | n in s.names ensures s'.heap[s'.names[n]].value == Summarize(Untag(s'.log), n) {
      SummarizeAppend(Untag(s.log), x, n);
    }
  }

  lemma UpdateProgress(s: System, programs: seq<seq<Sample>>, t: nat)
    requires WellFormed(s) && Enabled(s, t, Update) && Progress(s, programs)
    ensures Progress(Apply(s, t, Update), programs)
  {
    var x := s.threads[t].todo[0];
    var s' := Apply(s, t, Update);
    forall k | 0 <= k < |programs|
      ensures Filter(From(k), s'.log) + Tag(k, s'.threads[k].todo) == Tag(k, programs[k])
    {
      FilterAppend(From(k), s.log, (t, x));
      if k == t {
        AdvanceOne(Filter(From(t), s.log), t, s.threads[t].todo);
      }
    }
  }

  lemma AdvanceOne(front: seq<Tagged>, t: nat, todo: seq<Sample>)
    requires todo != []
    ensures front + [(t, todo[0])] + Tag(t, todo[1..]) == front + Tag(t, todo)
  {
    assert Tag(t, todo) == [(t, todo[0])] + Tag(t, todo[1..]);
  }

  /** No name ever changes or loses its object. */
  lemma MoveKeepsNames(s: System, programs: seq<seq<Sample>>, all: set<string>, t: nat, m: Move)
    requires Inv(s, programs, all) && Fits(s.limit, programs, all) && WellFormed(s) && Enabled(s, t, m)
    ensures Apply(s, t, m).limit == s.limit
    ensures forall n :: n in s.names ==> n in Apply(s, t, m).names && Apply(s, t, m).names[n] == s.names[n]
  {
    if m.Create? && s.threads[t].todo[0].name !in s.names {
      NoEviction(s, programs, all, t, m.victim);
    }
  }

  lemma MoveKeepsInv(s: System, programs: seq<seq<Sample>>, all: set<string>, t: nat, m: Move)
    requires Inv(s, programs, all) && Fits(s.limit, programs, all) && WellFormed(s) && Enabled(s, t, m)
    ensures Inv(Apply(s, t, m), programs, all)
  {
    match m
    case Lookup => LookupKeepsInv(s, programs, all, t);
    case Create(victim) => CreateKeepsInv(s, programs, all, t, victim);
    case Touch(now) => TouchKeepsInv(s, programs, all, t, now);
    case Update => UpdateKeepsInv(s, programs, all, t);
  }

  /** A step stores an access time in the profile in hand, and only there; a new profile has none yet. */
  lemma StampsFollowTouches(s: System, t: nat, m: Move, obj: nat)
    requires WellFormed(s) && Enabled(s, t, m) && obj < |Apply(s, t, m).heap|
    ensures Apply(s, t, m).heap[obj].lastAccess
         == if obj == |s.heap| then 0
            else if m.Touch? && s.threads[t].pc.obj == obj then m.now
            else s.heap[obj].lastAccess
  {
  }

  /** In every reachable state: one object per name, every held pointer is the stored one, no update lost so far. */
  lemma {:induction false} InvariantHolds(limit: nat, programs: seq<seq<Sample>>, all: set<string>,
                                          schedule: seq<(nat, Move)>, s: System)
    requires Fits(limit, programs, all) && Reaches(Start(limit, programs), schedule, s)
    ensures Inv(s, programs, all) && s.limit == limit
  {
    if schedule == [] {
    } else {
      var n := |schedule| - 1;
      var mid :| Reaches(Start(limit, programs), schedule[..n], mid) && WellFormed(mid)
                 && Enabled(mid, schedule[n].0, schedule[n].1) && s == Apply(mid, schedule[n].0, schedule[n].1);
      InvariantHolds(limit, programs, all, schedule[..n], mid);
      MoveKeepsNames(mid, programs, all, schedule[n].0, schedule[n].1);
      MoveKeepsInv(mid, programs, all, schedule[n].0, schedule[n].1);
    }
  }

  /**
    When all threads are done, each operation has exactly one profile and it is the one that processing
    the programs one after the other would have built, whatever the interleaving was.
   */
  lemma SafeUnderEveryInterleaving(limit: nat, programs: seq<seq<Sample>>, all: set<string>,
                                   schedule: seq<(nat, Move)>, s: System)
    requires Fits(limit, programs, all) && Reaches(Start(limit, programs), schedule, s)
    requires forall t :: 0 <= t < |s.threads| ==> s.threads[t].todo == []
    ensures OneObjectPerName(s)
    ensures s.names.Keys == NamesIn(Untag(InTurn(programs, |programs|)))
    ensures forall n :: n in s.names ==>
              s.heap[s.names[n]].value == Summarize(Untag(InTurn(programs, |programs|)), n)
    ensures forall t :: 0 <= t < |programs| ==> Filter(From(t), s.log) == Tag(t, programs[t])
  {
    InvariantHolds(limit, programs, all, schedule, s);
    QuiescentIsInTurn(s, programs, all);
  }

  ghost predicate Quiescent(s: System) {
    forall t :: 0 <= t < |s.threads| ==> s.threads[t].todo == []
  }

  lemma QuiescentIsInTurn(s: System, programs: seq<seq<Sample>>, all: set<string>)
    requires Inv(s, programs, all) && Quiescent(s)
    ensures s.names.Keys == NamesIn(Untag(InTurn(programs, |programs|)))
    ensures forall n :: n in s.names ==>
              s.heap[s.names[n]].value == Summarize(Untag(InTurn(programs, |programs|)), n)
    ensures forall t :: 0 <= t < |programs| ==> Filter(From(t), s.log) == Tag(t, programs[t])
  {
    ProgramsDone(s, programs);
    StoredExactly(s, programs, all);
    SameAsInTurn(s, programs);
  }

  lemma StoredExactly(s: System, programs: seq<seq<Sample>>, all: set<string>)
    requires Inv(s, programs, all) && Quiescent(s)
    ensures s.names.Keys == NamesIn(Untag(s.log))
  {
    UpdatedAreStored(s);
    StoredAreUpdated(s);
  }

  lemma SameAsInTurn(s: System, programs: seq<seq<Sample>>)
    requires OneObjectPerName(s) && AggregatesLog(s) && s.names.Keys == NamesIn(Untag(s.log))
    requires forall e :: e in s.log ==> e.0 < |programs|
    requires forall t :: 0 <= t < |programs| ==> Filter(From(t), s.log) == Tag(t, programs[t])
    ensures s.names.Keys == NamesIn(Untag(InTurn(programs, |programs|)))
    ensures forall n :: n in s.names ==>
              s.heap[s.names[n]].value == Summarize(Untag(InTurn(programs, |programs|)), n)
  {
    LogIsPermutation(programs, s.log);
    SameSummaries(Untag(s.log), Untag(InTurn(programs, |programs|)));
  }

  lemma ProgramsDone(s: System, programs: seq<seq<Sample>>)
    requires Progress(s, programs) && forall t :: 0 <= t < |s.threads| ==> s.threads[t].todo == []
    ensures forall t :: 0 <= t < |programs| ==> Filter(From(t), s.log) == Tag(t, programs[t])
  {
    forall t | 0 <= t < |programs| ensures Filter(From(t), s.log) == Tag(t, programs[t]) {
      assert Tag(t, s.threads[t].todo) == [];
    }
  }

  lemma SameSummaries(xs: seq<Sample>, ys: seq<Sample>)
    requires multiset(xs) == multiset(ys)
    ensures NamesIn(xs) == NamesIn(ys)
    ensures forall n :: Summarize(xs, n) == Summarize(ys, n)
  {
    SameElements(xs, ys);
    forall n ensures Summarize(xs, n) == Summarize(ys, n) {
      OrderDoesNotMatter(xs, ys, n);
    }
  }

  lemma UpdatedAreStored(s: System)
    requires OneObjectPerName(s) && AggregatesLog(s)
    ensures NamesIn(Untag(s.log)) <= s.names.Keys
  {
    var xs := Untag(s.log);
    forall x | x in xs ensures x.name in s.names {
      var i :| 0 <= i < |xs| && xs[i] == x;
      assert s.log[i] in s.log;
    }
  }

  lemma StoredAreUpdated(s: System)
    requires NamesInUse(s) && forall t :: 0 <= t < |s.threads| ==> s.threads[t].todo == []
    ensures s.names.Keys <= NamesIn(Untag(s.log))
  {
    var xs := Untag(s.log);
    forall n | n in s.names ensures n in NamesIn(xs) {
      var e :| e in s.log && e.1.name == n;
      var i :| 0 <= i < |s.log| && s.log[i] == e;
      assert xs[i] == e.1;
    }
  }

  lemma LogIsPermutation(programs: seq<seq<Sample>>, log: seq<Tagged>)
    requires forall e :: e in log ==> e.0 < |programs|
    requires forall t :: 0 <= t < |programs| ==> Filter(From(t), log) == Tag(t, programs[t])
    ensures multiset(Untag(log)) == multiset(Untag(InTurn(programs, |programs|)))
  {
    var turn := InTurn(programs, |programs|);
    forall k: nat ensures Filter(From(k), log) == Filter(From(k), turn) {
      InTurnProjects(programs, |programs|, k);
      if k >= |programs| {
        NoneFrom(k, log);
      }
    }
    SameProjections(log, turn);
    UntagPermutation(log, turn);
  }
}
