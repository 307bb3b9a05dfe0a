/** What holds of alerts, notifications and silences over whole runs of the alert manager. */
module AlertRuns {
  import opened Options
  import opened Folding
  import opened AlertManagers

  datatype Op =
    | Evaluate(rule: Rule, met: bool, value: real, at: Readings, replies: seq<Reply>)
    | Resolve(fp: string, at: Readings, replies: seq<Reply>)
    | AddSilence(silence: Silence)
    | DropSilence(id: nat)
    | ExpireSilences(now: int)
    | ExpireAlerts(now: int)

  function Apply(m: Manager, op: Op): Manager {
    match op
    case Evaluate(rule, met, value, at, replies) =>
      if met then EvaluateMet(m, rule, value, at, replies) else EvaluateUnmet(m, rule, at, replies)
    case Resolve(fp, at, replies) => ResolveByHand(m, fp, at, replies)
    case AddSilence(s) => if |m.silences| >= m.maxSilences then m else m.(silences := m.silences[s.id := s])
    case DropSilence(id) => m.(silences := m.silences - {id})
    case ExpireSilences(now) => CleanupSilences(m, now)
    case ExpireAlerts(now) => CleanupAlerts(m, now)
  }

  /** states[i] is the manager before ops[i]; it starts empty, and each call reads the clock in order. */
  ghost predicate Run(states: seq<Manager>, ops: seq<Op>) {
    && |states| == |ops| + 1
    && states[0] == Initial(states[0].resolveTimeout, states[0].maxSilences)
    && (forall i :: 0 <= i < |ops| ==> states[i + 1] == Apply(states[i], ops[i]))
    && (forall i :: 0 <= i < |ops| && (ops[i].Evaluate? || ops[i].Resolve?) ==> Ordered(ops[i].at))
  }

  predicate InState(m: Manager, fp: string, st: AlertState) {
    fp in m.alerts && m.alerts[fp].state == st
  }

  predicate Evaluates(op: Op, fp: string) {
    op.Evaluate? && op.rule.fingerprint == fp
  }

  // ---------- invariants ----------

  /**
    Alerts sit under their own fingerprint, none is in the unused state, and only stored alerts have
    notification times.
   */
  ghost predicate WellKept(m: Manager) {
    && (forall fp :: fp in m.alerts ==> m.alerts[fp].fingerprint == fp && !m.alerts[fp].state.Suppressed?)
    && m.lastNotify.Keys <= m.alerts.Keys
  }

  /** A call moves at most one alert; the one it can move. */
  function Target(op: Op): Option<string> {
    match op
    case Evaluate(rule, _, _, _, _) => Some(rule.fingerprint)
    case Resolve(fp, _, _) => Some(fp)
    case _ => None
  }

  /** The alert as an evaluation leaves it whose condition holds. */
  function MetAlert(m: Manager, rule: Rule, value: real, at: Readings): Alert {
    if rule.fingerprint !in m.alerts then TransitionTo(CreateAlert(rule, value, at.now), Pending, at.stamp)
    else
      var a := m.alerts[rule.fingerprint].(value := value);
      if a.state.Pending? && at.now - a.updatedAt >= rule.forDuration then TransitionTo(a, Firing, at.stamp)
      else if a.state.Inactive? || a.state.Resolved? then TransitionTo(a, Pending, at.stamp)
      else a
  }

  lemma MetLive(m: Manager, rule: Rule, value: real, at: Readings, replies: seq<Reply>)
    requires rule.fingerprint in m.alerts
    requires var st := m.alerts[rule.fingerprint].state; st.Pending? || st.Firing?
    ensures EvaluateMet(m, rule, value, at, replies).alerts
         == m.alerts[rule.fingerprint := MetAlert(m, rule, value, at)]
  {
  }

  lemma MetAlerts(m: Manager, rule: Rule, value: real, at: Readings, replies: seq<Reply>)
    ensures EvaluateMet(m, rule, value, at, replies).alerts
         == m.alerts[rule.fingerprint := MetAlert(m, rule, value, at)]
  {
    var fp := rule.fingerprint;
    if fp in m.alerts && (m.alerts[fp].state.Pending? || m.alerts[fp].state.Firing?) {
      MetLive(m, rule, value, at, replies);
    }
  }

  /** The alert as an evaluation leaves it whose condition does not hold. */
  function UnmetAlert(a: Alert, at: Readings): Alert {
    if a.state.Pending? then TransitionTo(a, Inactive, at.stamp)
    else if a.state.Firing? then TransitionTo(a, Resolved, at.stamp)
    else a
  }

  lemma UnmetAlerts(m: Manager, rule: Rule, at: Readings, replies: seq<Reply>)
    requires rule.fingerprint in m.alerts
    ensures EvaluateUnmet(m, rule, at, replies).alerts
         == m.alerts[rule.fingerprint := UnmetAlert(m.alerts[rule.fingerprint], at)]
  {
  }

  lemma MetTouchesOne(m: Manager, rule: Rule, value: real, at: Readings, replies: seq<Reply>)
    ensures var fp := rule.fingerprint; var m' := EvaluateMet(m, rule, value, at, replies);
            fp in m'.alerts && m'.alerts == m.alerts[fp := m'.alerts[fp]]
  {
    MetAlerts(m, rule, value, at, replies);
  }

  lemma UnmetTouchesOne(m: Manager, rule: Rule, at: Readings, replies: seq<Reply>)
    ensures var fp := rule.fingerprint; var m' := EvaluateUnmet(m, rule, at, replies);
            if fp in m.alerts then fp in m'.alerts && m'.alerts == m.alerts[fp := m'.alerts[fp]] else m' == m
  {
  }

  lemma ResolveTouchesOne(m: Manager, fp: string, at: Readings, replies: seq<Reply>)
    ensures var m' := ResolveByHand(m, fp, at, replies);
            if fp in m.alerts then fp in m'.alerts && m'.alerts == m.alerts[fp := m'.alerts[fp]] else m' == m
  {
  }

  /** Calls aimed at an alert change no other; they may only add theirs. */
  lemma TouchesTarget(m: Manager, op: Op, fp: string)
    requires Target(op) == Some(fp)
    ensures var m' := Apply(m, op);
            if fp in m'.alerts then m'.alerts == m.alerts[fp := m'.alerts[fp]] else m'.alerts == m.alerts
    ensures fp in m.alerts ==> fp in Apply(m, op).alerts
    ensures fp in Apply(m, op).alerts && fp !in m.alerts ==> op.Evaluate? && op.met
  {
    match op
    case Evaluate(rule, met, value, at, replies) =>
      if met {
        MetTouchesOne(m, rule, value, at, replies);
      } else {
        UnmetTouchesOne(m, rule, at, replies);
      }
    case Resolve(_, at, replies) => ResolveTouchesOne(m, fp, at, replies);
  }

  lemma ApplyKeepsWellKept(m: Manager, op: Op)
    requires WellKept(m)
    ensures WellKept(Apply(m, op))
  {
    match Target(op) {
      case None =>
      case Some(fp) =>
        TouchesTarget(m, op, fp);
        if fp in Apply(m, op).alerts {
          TargetState(m, op, fp);
        }
        TargetNotified(m, op, fp);
    }
  }

  /** The states a call can leave its alert in. */
  predicate Sound(a: Alert, fp: string) {
    a.fingerprint == fp && !a.state.Suppressed?
  }

  lemma MetState(m: Manager, rule: Rule, value: real, at: Readings, replies: seq<Reply>)
    requires rule.fingerprint in m.alerts ==> Sound(m.alerts[rule.fingerprint], rule.fingerprint)
    ensures rule.fingerprint in EvaluateMet(m, rule, value, at, replies).alerts
    ensures Sound(EvaluateMet(m, rule, value, at, replies).alerts[rule.fingerprint], rule.fingerprint)
  {
    MetAlerts(m, rule, value, at, replies);
  }

  lemma UnmetState(m: Manager, rule: Rule, at: Readings, replies: seq<Reply>)
    requires rule.fingerprint in m.alerts && Sound(m.alerts[rule.fingerprint], rule.fingerprint)
    ensures rule.fingerprint in EvaluateUnmet(m, rule, at, replies).alerts
    ensures Sound(EvaluateUnmet(m, rule, at, replies).alerts[rule.fingerprint], rule.fingerprint)
  {
    UnmetAlerts(m, rule, at, replies);
  }

  lemma TargetState(m: Manager, op: Op, fp: string)
    requires WellKept(m) && Target(op) == Some(fp) && fp in Apply(m, op).alerts
    ensures Sound(Apply(m, op).alerts[fp], fp)
  {
    match op {
      case Evaluate(rule, met, value, at, replies) =>
        if met {
          MetState(m, rule, value, at, replies);
        } else {
          UnmetTouchesOne(m, rule, at, replies);
          UnmetState(m, rule, at, replies);
        }
      case Resolve(_, at, replies) =>
    }
  }

  lemma TargetNotified(m: Manager, op: Op, fp: string)
    requires WellKept(m) && Target(op) == Some(fp)
    ensures var m' := Apply(m, op);
            m'.lastNotify == m.lastNotify || (fp in m'.alerts && m'.lastNotify == m.lastNotify[fp := op.at.sent])
  {
    match op {
      case Evaluate(rule, met, value, at, replies) =>
        TouchesTarget(m, op, fp);
        if met {
          MetRound(m, rule, value, at, replies);
        } else {
          UnmetRound(m, rule, at, replies);
        }
      case Resolve(_, at, replies) =>
    }
  }

  lemma {:induction false} RunWellKept(states: seq<Manager>, ops: seq<Op>, n: nat)
    requires Run(states, ops) && n <= |ops|
    ensures WellKept(states[n])
  {
    if n == 0 {
    } else {
      RunWellKept(states, ops, n - 1);
      ApplyKeepsWellKept(states[n - 1], ops[n - 1]);
    }
  }

  // ---------- what it takes to fire ----------

  /** Call i put the alert into pending, and from then to state n it stayed pending with the condition met. */
  ghost predicate PendingSince(states: seq<Manager>, ops: seq<Op>, fp: string, i: nat, n: nat)
    requires |states| == |ops| + 1
  {
    && i < n <= |ops|
    && Evaluates(ops[i], fp) && ops[i].met && !InState(states[i], fp, Pending) && !InState(states[i], fp, Firing)
    && (forall k :: i < k <= n ==> InState(states[k], fp, Pending) && states[k].alerts[fp].updatedAt == ops[i].at.stamp)
    && (forall k :: i <= k < n && Evaluates(ops[k], fp) ==> ops[k].met)
  }

  /** A later call j, at least the rule's duration after that entry, made it fire, and it kept firing to state n. */
  ghost predicate FiringStory(states: seq<Manager>, ops: seq<Op>, fp: string, i: nat, j: nat, n: nat)
    requires |states| == |ops| + 1
  {
    && PendingSince(states, ops, fp, i, j)
    && j < n <= |ops|
    && Evaluates(ops[j], fp) && ops[j].at.now - ops[i].at.stamp >= ops[j].rule.forDuration
    && (forall k :: j < k <= n ==> InState(states[k], fp, Firing))
    && (forall k :: j <= k < n && Evaluates(ops[k], fp) ==> ops[k].met)
  }

  /** How a call that aims at the alert leaves it. */
  lemma TargetAlert(m: Manager, op: Op, fp: string)
    requires Target(op) == Some(fp)
    ensures op.Evaluate? && op.met ==>
              fp in Apply(m, op).alerts && Apply(m, op).alerts[fp] == MetAlert(m, op.rule, op.value, op.at)
    ensures op.Evaluate? && !op.met && fp in m.alerts ==>
              fp in Apply(m, op).alerts && Apply(m, op).alerts[fp] == UnmetAlert(m.alerts[fp], op.at)
    ensures op.Evaluate? && !op.met && fp !in m.alerts ==> fp !in Apply(m, op).alerts
    ensures op.Resolve? && fp in m.alerts ==>
              fp in Apply(m, op).alerts && Apply(m, op).alerts[fp] == TransitionTo(m.alerts[fp], Resolved, op.at.stamp)
    ensures op.Resolve? && fp !in m.alerts ==> fp !in Apply(m, op).alerts
  {
    match op {
      case Evaluate(rule, met, value, at, replies) =>
        if met {
          MetAlerts(m, rule, value, at, replies);
        } else if fp in m.alerts {
          UnmetAlerts(m, rule, at, replies);
        }
      case Resolve(_, at, replies) =>
    }
  }

  lemma BecomesPending(m: Manager, op: Op, fp: string)
    requires WellKept(m) && InState(Apply(m, op), fp, Pending)
    ensures if InState(m, fp, Pending)
            then Apply(m, op).alerts[fp].updatedAt == m.alerts[fp].updatedAt && (Evaluates(op, fp) ==> op.met)
            else Evaluates(op, fp) && op.met && !InState(m, fp, Firing)
                 && Apply(m, op).alerts[fp].updatedAt == op.at.stamp
  {
    if Target(op) == Some(fp) {
      TargetAlert(m, op, fp);
    } else {
      OthersUntouched(m, op, fp);
    }
  }

  lemma BecomesFiring(m: Manager, op: Op, fp: string)
    requires WellKept(m) && InState(Apply(m, op), fp, Firing)
    ensures Evaluates(op, fp) ==> op.met
    ensures InState(m, fp, Firing)
         || (InState(m, fp, Pending) && Evaluates(op, fp) && op.at.now - m.alerts[fp].updatedAt >= op.rule.forDuration)
  {
    if Target(op) == Some(fp) {
      TargetAlert(m, op, fp);
    } else {
      OthersUntouched(m, op, fp);
    }
  }

  /** Between two states, the alert stayed pending, or became so. */
  lemma PendingStep(states: seq<Manager>, ops: seq<Op>, fp: string, n: nat)
    requires Run(states, ops) && n < |ops| && InState(states[n + 1], fp, Pending)
    ensures if InState(states[n], fp, Pending)
            then states[n + 1].alerts[fp].updatedAt == states[n].alerts[fp].updatedAt
                 && (Evaluates(ops[n], fp) ==> ops[n].met)
            else Evaluates(ops[n], fp) && ops[n].met && !InState(states[n], fp, Firing)
                 && states[n + 1].alerts[fp].updatedAt == ops[n].at.stamp
  {
    RunWellKept(states, ops, n);
    BecomesPending(states[n], ops[n], fp);
  }

  lemma PendingContinues(states: seq<Manager>, ops: seq<Op>, fp: string, i: nat, n: nat)
    requires |states| == |ops| + 1 && n < |ops| && PendingSince(states, ops, fp, i, n)
    requires InState(states[n + 1], fp, Pending) && (Evaluates(ops[n], fp) ==> ops[n].met)
    requires states[n + 1].alerts[fp].updatedAt == states[n].alerts[fp].updatedAt
    ensures PendingSince(states, ops, fp, i, n + 1)
  {
  }

  lemma PendingStarts(states: seq<Manager>, ops: seq<Op>, fp: string, n: nat)
    requires |states| == |ops| + 1 && n < |ops| && InState(states[n + 1], fp, Pending)
    requires !InState(states[n], fp, Pending) && !InState(states[n], fp, Firing)
    requires Evaluates(ops[n], fp) && ops[n].met && states[n + 1].alerts[fp].updatedAt == ops[n].at.stamp
    ensures PendingSince(states, ops, fp, n, n + 1)
  {
  }

  lemma NothingAtFirst(states: seq<Manager>, ops: seq<Op>, fp: string, st: AlertState)
    requires Run(states, ops)
    ensures !InState(states[0], fp, st)
  {
  }

  lemma {:induction false} PendingHasEntry(states: seq<Manager>, ops: seq<Op>, fp: string, n: nat) returns (i: nat)
    requires Run(states, ops) && n <= |ops| && InState(states[n], fp, Pending)
    ensures PendingSince(states, ops, fp, i, n)
  {
    NothingAtFirst(states, ops, fp, Pending);
    var p := n - 1;
    PendingStep(states, ops, fp, p);
    if InState(states[p], fp, Pending) {
      i := PendingHasEntry(states, ops, fp, p);
      PendingContinues(states, ops, fp, i, p);
    } else {
      i := p;
      PendingStarts(states, ops, fp, p);
    }
  }

  /** Between two states, the alert stayed firing, or started to. */
  lemma FiringStep(states: seq<Manager>, ops: seq<Op>, fp: string, n: nat)
    requires Run(states, ops) && n < |ops| && InState(states[n + 1], fp, Firing)
    ensures Evaluates(ops[n], fp) ==> ops[n].met
    ensures InState(states[n], fp, Firing)
         || (InState(states[n], fp, Pending) && Evaluates(ops[n], fp)
             && ops[n].at.now - states[n].alerts[fp].updatedAt >= ops[n].rule.forDuration)
  {
    RunWellKept(states, ops, n);
    BecomesFiring(states[n], ops[n], fp);
  }

  /** Some evaluation made the alert pending, and a later one, long enough after, made it fire. */
  ghost predicate FiredByTwo(states: seq<Manager>, ops: seq<Op>, fp: string, n: nat)
    requires |states| == |ops| + 1
  {
    exists i: nat, j: nat :: i < j && FiringStory(states, ops, fp, i, j, n)
  }

  lemma StoryStarts(states: seq<Manager>, ops: seq<Op>, fp: string, i: nat, j: nat)
    requires |states| == |ops| + 1 && j < |ops| && PendingSince(states, ops, fp, i, j)
    requires Evaluates(ops[j], fp) && ops[j].met && InState(states[j + 1], fp, Firing)
    requires ops[j].at.now - states[j].alerts[fp].updatedAt >= ops[j].rule.forDuration
    ensures FiredByTwo(states, ops, fp, j + 1)
  {
    assert FiringStory(states, ops, fp, i, j, j + 1);
  }

  lemma StoryContinues(states: seq<Manager>, ops: seq<Op>, fp: string, n: nat)
    requires |states| == |ops| + 1 && n < |ops| && FiredByTwo(states, ops, fp, n)
    requires InState(states[n + 1], fp, Firing) && (Evaluates(ops[n], fp) ==> ops[n].met)
    ensures FiredByTwo(states, ops, fp, n + 1)
  {
    var i: nat, j: nat :| i < j && FiringStory(states, ops, fp, i, j, n);
    assert FiringStory(states, ops, fp, i, j, n + 1);
  }

  /**
    An alert that is firing was put into pending by one evaluation and made to fire by a later one, at
    least the rule's duration after; every evaluation from the first of them on met the condition.
   */
  lemma {:induction false} FiringHasHistory(states: seq<Manager>, ops: seq<Op>, fp: string, n: nat)
    requires Run(states, ops) && n <= |ops| && InState(states[n], fp, Firing)
    ensures FiredByTwo(states, ops, fp, n)
  {
    var p := n - 1;
    FiringStep(states, ops, fp, p);
    if InState(states[p], fp, Firing) {
      FiringHasHistory(states, ops, fp, p);
      StoryContinues(states, ops, fp, p);
    } else {
      var i := PendingHasEntry(states, ops, fp, p);
      StoryStarts(states, ops, fp, i, p);
    }
  }

  /** One evaluation never makes an alert fire, not even with a zero duration. */
  lemma FiringTakesTwoEvaluations(states: seq<Manager>, ops: seq<Op>, fp: string, n: nat)
    requires Run(states, ops) && n <= |ops| && InState(states[n], fp, Firing)
    ensures exists i, j :: 0 <= i < j < n && Evaluates(ops[i], fp) && Evaluates(ops[j], fp) && ops[i].met && ops[j].met
  {
    FiringHasHistory(states, ops, fp, n);
    var i: nat, j: nat :| i < j && FiringStory(states, ops, fp, i, j, n);
    assert Evaluates(ops[i], fp) && Evaluates(ops[j], fp);
  }

  // ---------- accounting ----------

  /** Alerts that a call takes from one state to another. */
  ghost function Moved(m: Manager, m': Manager, from: AlertState, to: AlertState): set<string> {
    set fp | fp in m.alerts && fp in m'.alerts && m.alerts[fp].state == from && m'.alerts[fp].state == to
  }

  ghost function FiringNow(m: Manager): set<string> {
    set fp | fp in m.alerts && m.alerts[fp].state.Firing?
  }

  ghost function Erased(m: Manager, m': Manager): set<string> {
    m.alerts.Keys - m'.alerts.Keys
  }

  /** The number of moves from one state to another in the first n calls. */
  ghost function MoveCount(states: seq<Manager>, n: nat, from: AlertState, to: AlertState): nat
    requires n < |states|
  {
    if n == 0 then 0
    else MoveCount(states, n - 1, from, to) + |Moved(states[n - 1], states[n], from, to)|
  }

  ghost function EraseCount(states: seq<Manager>, n: nat): nat
    requires n < |states|
  {
    if n == 0 then 0 else EraseCount(states, n - 1) + |Erased(states[n - 1], states[n])|
  }

  /** Moves from pending to firing without a notification round. */
  ghost function SilentFireCount(states: seq<Manager>, n: nat): nat
    requires n < |states|
  {
    if n == 0 then 0
    else SilentFireCount(states, n - 1)
         + if Moved(states[n - 1], states[n], Pending, Firing) != {} && states[n].dispatches == states[n - 1].dispatches
           then 1 else 0
  }

  lemma OthersUntouched(m: Manager, op: Op, fp: string)
    requires Target(op) != Some(fp)
    ensures fp in Apply(m, op).alerts ==> fp in m.alerts && Apply(m, op).alerts[fp] == m.alerts[fp]
    ensures fp in m.alerts && fp !in Apply(m, op).alerts ==>
              op.ExpireAlerts? && Expired(m.alerts[fp], m.resolveTimeout, op.now)
  {
    match Target(op) {
      case None =>
      case Some(t) => TouchesTarget(m, op, t);
    }
  }

  /** Cleanup erases exactly the alerts resolved longer ago than the timeout, so never a pending or firing one. */
  lemma OnlyExpiredErased(m: Manager, op: Op, fp: string)
    requires fp in m.alerts
    ensures fp !in Apply(m, op).alerts <==> op.ExpireAlerts? && Expired(m.alerts[fp], m.resolveTimeout, op.now)
    ensures fp !in Apply(m, op).alerts ==> m.alerts[fp].state.Resolved?
  {
    match Target(op) {
      case None =>
      case Some(t) => TouchesTarget(m, op, t);
    }
  }

  lemma MovedAtMostTarget(m: Manager, op: Op, from: AlertState, to: AlertState)
    requires from != to
    ensures forall fp :: fp in Moved(m, Apply(m, op), from, to) ==> Target(op) == Some(fp)
  {
    forall fp | fp in Moved(m, Apply(m, op), from, to) ensures Target(op) == Some(fp) {
      if Target(op) != Some(fp) {
        OthersUntouched(m, op, fp);
      }
    }
  }

  /** What one call does to the alert it aims at. */
  lemma MovedIsTarget(m: Manager, op: Op, from: AlertState, to: AlertState)
    requires from != to
    ensures var s := Moved(m, Apply(m, op), from, to);
            s == match Target(op)
                 case None => {}
                 case Some(fp) => if InState(m, fp, from) && InState(Apply(m, op), fp, to) then {fp} else {}
  {
    MovedAtMostTarget(m, op, from, to);
  }

  /** The firing alerts after a call: those before, with the one that started and without the one that was resolved. */
  lemma FiringAt(m: Manager, op: Op, fp: string)
    requires WellKept(m)
    ensures var m' := Apply(m, op);
            fp in FiringNow(m') <==> (fp in Moved(m, m', Pending, Firing)
                                      || (fp in FiringNow(m) && fp !in Moved(m, m', Firing, Resolved)))
  {
    if Target(op) == Some(fp) {
      TargetMoves(m, op, fp);
      TouchesTarget(m, op, fp);
    } else {
      OthersUntouched(m, op, fp);
    }
  }

  lemma OneInOneOut(before: set<string>, after: set<string>, came: set<string>, went: set<string>)
    requires came !! before && went <= before
    requires forall fp :: fp in after <==> fp in came || (fp in before && fp !in went)
    ensures |after| == |before| + |came| - |went|
  {
    assert after == (before - went) + came;
    assert |before - went| == |before| - |went|;
  }

  lemma FiringBalance(m: Manager, op: Op)
    requires WellKept(m)
    ensures var m' := Apply(m, op);
            |FiringNow(m')| == |FiringNow(m)| + |Moved(m, m', Pending, Firing)| - |Moved(m, m', Firing, Resolved)|
  {
    var m' := Apply(m, op);
    forall fp
      ensures fp in FiringNow(m') <==> (fp in Moved(m, m', Pending, Firing)
                                        || (fp in FiringNow(m) && fp !in Moved(m, m', Firing, Resolved)))
    {
      FiringAt(m, op, fp);
    }
    OneInOneOut(FiringNow(m), FiringNow(m'), Moved(m, m', Pending, Firing), Moved(m, m', Firing, Resolved));
  }

  lemma TargetMoves(m: Manager, op: Op, fp: string)
    requires WellKept(m) && Target(op) == Some(fp)
    ensures InState(Apply(m, op), fp, Firing) && !InState(m, fp, Firing) ==> InState(m, fp, Pending)
    ensures InState(m, fp, Firing) && !InState(Apply(m, op), fp, Firing) ==> InState(Apply(m, op), fp, Resolved)
  {
  }

  /** Alerts firing now = moves from pending to firing minus moves from firing to resolved. */
  lemma {:induction false} FiringAccounted(states: seq<Manager>, ops: seq<Op>, n: nat)
    requires Run(states, ops) && n <= |ops|
    ensures |FiringNow(states[n])| == MoveCount(states, n, Pending, Firing) - MoveCount(states, n, Firing, Resolved)
  {
    if n > 0 {
      FiringAccounted(states, ops, n - 1);
      RunWellKept(states, ops, n - 1);
      FiringBalance(states[n - 1], ops[n - 1]);
    } else {
      assert FiringNow(states[0]) == {};
    }
  }

  lemma ResolvedByTarget(m: Manager, op: Op, fp: string)
    requires WellKept(m) && Target(op) == Some(fp)
    ensures Apply(m, op).resolved
         == m.resolved + if InState(m, fp, Firing) && InState(Apply(m, op), fp, Resolved) then 1 else 0
  {
    TargetAlert(m, op, fp);
  }

  lemma ResolvedStep(m: Manager, op: Op)
    requires WellKept(m)
    ensures Apply(m, op).resolved == m.resolved + |Moved(m, Apply(m, op), Firing, Resolved)|
  {
    MovedIsTarget(m, op, Firing, Resolved);
    match Target(op) {
      case Some(fp) => ResolvedByTarget(m, op, fp);
      case None =>
    }
  }

  /** alerts_resolved counts the moves from firing to resolved: only firing alerts can be resolved by hand. */
  lemma {:induction false} ResolvedAccounted(states: seq<Manager>, ops: seq<Op>, n: nat)
    requires Run(states, ops) && n <= |ops|
    ensures states[n].resolved == MoveCount(states, n, Firing, Resolved)
  {
    if n == 0 {
    } else {
      ResolvedAccounted(states, ops, n - 1);
      RunWellKept(states, ops, n - 1);
      ResolvedStep(states[n - 1], ops[n - 1]);
    }
  }

  /** What a call creates and erases is what the number of stored alerts changes by. */
  ghost predicate Balanced(m: Manager, m': Manager) {
    m'.created + |m.alerts| == m.created + |m'.alerts| + |Erased(m, m')|
  }

  lemma OtherCallsKeepAlerts(m: Manager, op: Op)
    requires Target(op) == None && !op.ExpireAlerts?
    ensures Apply(m, op).alerts == m.alerts && Apply(m, op).created == m.created
  {
  }

  lemma CallIsBalanced(m: Manager, op: Op)
    ensures Balanced(m, Apply(m, op))
  {
    match Target(op) {
      case Some(fp) => CreatedByTarget(m, op, fp);
      case None =>
        if op.ExpireAlerts? {
          ErasedByCleanup(m, op.now);
        } else {
          OtherCallsKeepAlerts(m, op);
          assert Erased(m, Apply(m, op)) == {};
        }
    }
  }

  lemma ErasedByCleanup(m: Manager, now: int)
    ensures |m.alerts| == |CleanupAlerts(m, now).alerts| + |Erased(m, CleanupAlerts(m, now))|
  {
    var gone := set fp | fp in m.alerts && Expired(m.alerts[fp], m.resolveTimeout, now);
    var m' := CleanupAlerts(m, now);
    assert m'.alerts.Keys == m.alerts.Keys - gone;
    assert Erased(m, m') == gone;
    assert |m.alerts.Keys| == |m'.alerts.Keys| + |gone|;
  }

  lemma CreatedByTarget(m: Manager, op: Op, fp: string)
    requires Target(op) == Some(fp)
    ensures var m' := Apply(m, op);
      && m'.created == m.created + (if fp in m'.alerts && fp !in m.alerts then 1 else 0)
      && |m'.alerts| == |m.alerts| + (if fp in m'.alerts && fp !in m.alerts then 1 else 0)
      && Erased(m, m') == {}
  {
    TouchesTarget(m, op, fp);
    CreatedCounts(m, op, fp);
    AtMostOneMore(m.alerts, Apply(m, op).alerts, fp);
  }

  lemma AtMostOneMore(before: map<string, Alert>, after: map<string, Alert>, fp: string)
    requires after == if fp in after then before[fp := after[fp]] else before
    ensures |after| == |before| + (if fp in after && fp !in before then 1 else 0)
    ensures before.Keys - after.Keys == {}
  {
    assert after.Keys == if fp in after then before.Keys + {fp} else before.Keys;
  }

  lemma CreatedCounts(m: Manager, op: Op, fp: string)
    requires Target(op) == Some(fp)
    ensures var m' := Apply(m, op);
            m'.created == m.created + (if fp in m'.alerts && fp !in m.alerts then 1 else 0)
  {
  }

  lemma {:induction false} BalancesAddUp(states: seq<Manager>, n: nat)
    requires n < |states| && states[0].created == |states[0].alerts|
    requires forall k :: 0 <= k < n ==> Balanced(states[k], states[k + 1])
    ensures states[n].created == |states[n].alerts| + EraseCount(states, n)
  {
    if n == 0 {
    } else {
      BalancesAddUp(states, n - 1);
      assert Balanced(states[n - 1], states[n - 1 + 1]);
    }
  }

  /** alerts_created = alerts stored plus alerts erased by cleanup. */
  lemma CreatedAccounted(states: seq<Manager>, ops: seq<Op>, n: nat)
    requires Run(states, ops) && n <= |ops|
    ensures states[n].created == |states[n].alerts| + EraseCount(states, n)
  {
    forall k | 0 <= k < n ensures Balanced(states[k], states[k + 1]) {
      CallIsBalanced(states[k], ops[k]);
    }
    BalancesAddUp(states, n);
  }

  /** Starting to fire either sends one round or counts one suppression, never both: the silences decide. */
  lemma FiringNotifiesOrIsSuppressed(m: Manager, op: Op, fp: string)
    requires WellKept(m) && fp in Moved(m, Apply(m, op), Pending, Firing)
    ensures var m' := Apply(m, op);
            if Silenced(m.silences, m'.alerts[fp], op.at.check)
            then m'.suppressed == m.suppressed + 1 && m'.dispatches == m.dispatches && m'.lastNotify == m.lastNotify
            else m'.suppressed == m.suppressed && m'.dispatches == m.dispatches + [Dispatch(fp, Firing, op.at.sent)]
                 && fp in m'.lastNotify && m'.lastNotify[fp] == op.at.sent
  {
    MovedIsTarget(m, op, Pending, Firing);
  }

  lemma SuppressedStep(m: Manager, op: Op)
    requires WellKept(m)
    ensures var m' := Apply(m, op);
            m'.suppressed == m.suppressed
              + if Moved(m, m', Pending, Firing) != {} && m'.dispatches == m.dispatches then 1 else 0
  {
    MovedIsTarget(m, op, Pending, Firing);
    match Target(op) {
      case None =>
      case Some(fp) =>
        if fp in Moved(m, Apply(m, op), Pending, Firing) {
          FiringNotifiesOrIsSuppressed(m, op, fp);
          assert |m.dispatches + [Dispatch(fp, Firing, op.at.sent)]| != |m.dispatches|;
        }
    }
  }

  /** alerts_suppressed counts the moves from pending to firing that sent nothing. */
  lemma {:induction false} SuppressedAccounted(states: seq<Manager>, ops: seq<Op>, n: nat)
    requires Run(states, ops) && n <= |ops|
    ensures states[n].suppressed == SilentFireCount(states, n)
  {
    if n == 0 {
    } else {
      SuppressedAccounted(states, ops, n - 1);
      RunWellKept(states, ops, n - 1);
      SuppressedStep(states[n - 1], ops[n - 1]);
    }
  }

  // ---------- how often notifications repeat ----------

  function Of(fp: string): Dispatch -> bool {
    (d: Dispatch) => d.fingerprint == fp
  }

  function NotifiedAt(m: Manager, fp: string): Option<int> {
    if fp in m.lastNotify then Some(m.lastNotify[fp]) else None
  }

  /** A round that a call sends goes at the end of the history and stamps the alert's entry. */
  lemma OneRoundPerCall(m: Manager, op: Op)
    requires WellKept(m)
    ensures var m' := Apply(m, op);
            || (m'.dispatches == m.dispatches
                && forall fp :: fp in m'.lastNotify ==> NotifiedAt(m', fp) == NotifiedAt(m, fp))
            || (exists fp, st :: Target(op) == Some(fp) && fp in m.alerts
                  && m'.dispatches == m.dispatches + [Dispatch(fp, st, op.at.sent)]
                  && m'.lastNotify == m.lastNotify[fp := op.at.sent])
  {
    match op {
      case Evaluate(rule, met, value, at, replies) =>
        if met {
          MetRound(m, rule, value, at, replies);
        } else {
          UnmetRound(m, rule, at, replies);
        }
      case Resolve(fp, at, replies) =>
        if fp in m.alerts && IsValidTransition(m.alerts[fp].state, Resolved) {
          assert Apply(m, op).dispatches == m.dispatches + [Dispatch(fp, Resolved, at.sent)];
        }
      case _ =>
    }
  }

  lemma MetRound(m: Manager, rule: Rule, value: real, at: Readings, replies: seq<Reply>)
    requires WellKept(m)
    ensures var m' := EvaluateMet(m, rule, value, at, replies); var fp := rule.fingerprint;
            || (m'.dispatches == m.dispatches && m'.lastNotify == m.lastNotify)
            || (fp in m.alerts && m'.dispatches == m.dispatches + [Dispatch(fp, Firing, at.sent)]
                && m'.lastNotify == m.lastNotify[fp := at.sent])
  {
    var fp := rule.fingerprint;
    if fp in m.alerts && (m.alerts[fp].state.Pending? || m.alerts[fp].state.Firing?) {
      MetRoundLive(m, rule, value, at, replies);
    }
  }

  lemma MetRoundLive(m: Manager, rule: Rule, value: real, at: Readings, replies: seq<Reply>)
    requires WellKept(m) && rule.fingerprint in m.alerts
    requires var st := m.alerts[rule.fingerprint].state; st.Pending? || st.Firing?
    ensures var m' := EvaluateMet(m, rule, value, at, replies); var fp := rule.fingerprint;
            || (m'.dispatches == m.dispatches && m'.lastNotify == m.lastNotify)
            || (m'.dispatches == m.dispatches + [Dispatch(fp, Firing, at.sent)]
                && m'.lastNotify == m.lastNotify[fp := at.sent])
  {
  }

  lemma UnmetRound(m: Manager, rule: Rule, at: Readings, replies: seq<Reply>)
    requires WellKept(m)
    ensures var m' := EvaluateUnmet(m, rule, at, replies); var fp := rule.fingerprint;
            || (m'.dispatches == m.dispatches && m'.lastNotify == m.lastNotify)
            || (fp in m.alerts && m'.dispatches == m.dispatches + [Dispatch(fp, Resolved, at.sent)]
                && m'.lastNotify == m.lastNotify[fp := at.sent])
  {
  }

  /** The alert's latest round carries the noted time. */
  ghost predicate NotedLatest(m: Manager, fp: string) {
    fp in m.lastNotify ==>
      var rounds := Filter(Of(fp), m.dispatches);
      rounds != [] && rounds[|rounds| - 1].time == m.lastNotify[fp]
  }

  lemma RoundNotesLatest(m: Manager, m': Manager, d: Dispatch, fp: string)
    requires NotedLatest(m, fp) && m'.dispatches == m.dispatches + [d]
    requires m'.lastNotify == m.lastNotify[d.fingerprint := d.time]
    ensures NotedLatest(m', fp)
  {
    FilterAppend(Of(fp), m.dispatches, d);
  }

  lemma SilenceNotesLatest(m: Manager, m': Manager, fp: string)
    requires NotedLatest(m, fp) && m'.dispatches == m.dispatches
    requires fp in m'.lastNotify ==> NotifiedAt(m', fp) == NotifiedAt(m, fp)
    ensures NotedLatest(m', fp)
  {
  }

  lemma CallNotesLatest(m: Manager, op: Op, fp: string)
    requires WellKept(m) && NotedLatest(m, fp)
    ensures NotedLatest(Apply(m, op), fp)
  {
    var m' := Apply(m, op);
    OneRoundPerCall(m, op);
    if m'.dispatches == m.dispatches {
      SilenceNotesLatest(m, m', fp);
    } else {
      var g, st :| Target(op) == Some(g) && m'.dispatches == m.dispatches + [Dispatch(g, st, op.at.sent)]
                   && m'.lastNotify == m.lastNotify[g := op.at.sent];
      RoundNotesLatest(m, m', Dispatch(g, st, op.at.sent), fp);
    }
  }

  lemma {:induction false} RunNotesLatest(states: seq<Manager>, ops: seq<Op>, n: nat, fp: string)
    requires Run(states, ops) && n <= |ops|
    ensures NotedLatest(states[n], fp)
  {
    if n == 0 {
    } else {
      RunNotesLatest(states, ops, n - 1, fp);
      RunWellKept(states, ops, n - 1);
      CallNotesLatest(states[n - 1], ops[n - 1], fp);
    }
  }

  /** last_notification_times_ holds only stored alerts, each with the time of its latest round. */
  lemma NotificationTimesAreLatest(states: seq<Manager>, ops: seq<Op>, n: nat, fp: string)
    requires Run(states, ops) && n <= |ops| && fp in states[n].lastNotify
    ensures fp in states[n].alerts
    ensures var rounds := Filter(Of(fp), states[n].dispatches);
            rounds != [] && rounds[|rounds| - 1].time == states[n].lastNotify[fp]
  {
    RunWellKept(states, ops, n);
    RunNotesLatest(states, ops, n, fp);
  }

  /** The alert fires in every state after a up to b. */
  ghost predicate Episode(states: seq<Manager>, fp: string, a: nat, b: nat) {
    a <= b < |states| && forall k :: a < k <= b ==> InState(states[k], fp, Firing)
  }

  /** The times of the rounds sent for the alert by calls a to b - 1. */
  ghost function Rounds(states: seq<Manager>, fp: string, a: nat, b: nat): seq<int>
    requires b < |states|
  {
    if b <= a then []
    else
      var d := states[b].dispatches;
      Rounds(states, fp, a, b - 1) + if SendsRound(states[b - 1], states[b], fp) then [d[|d| - 1].time] else []
  }

  ghost predicate FixedInterval(ops: seq<Op>, fp: string, interval: int) {
    forall k :: 0 <= k < |ops| && Evaluates(ops[k], fp) ==> ops[k].rule.repeatInterval == interval
  }

  ghost predicate Spaced(ts: seq<int>, interval: int) {
    forall i :: 0 < i < |ts| ==> ts[i] - ts[i - 1] >= interval
  }

  /** A call that finds and leaves the alert firing sends a round for it only when the interval is over. */
  lemma RepeatStep(m: Manager, op: Op, fp: string)
    requires WellKept(m) && InState(m, fp, Firing) && InState(Apply(m, op), fp, Firing)
    ensures var m' := Apply(m, op);
            if Evaluates(op, fp) && RepeatDue(m, fp, op.rule, op.at.now)
               && !Silenced(m.silences, m.alerts[fp], op.at.check)
            then m'.dispatches == m.dispatches + [Dispatch(fp, Firing, op.at.sent)]
                 && NotifiedAt(m', fp) == Some(op.at.sent)
            else NotifiedAt(m', fp) == NotifiedAt(m, fp)
                 && (m'.dispatches == m.dispatches
                     || exists g, st, t :: g != fp && m'.dispatches == m.dispatches + [Dispatch(g, st, t)])
  {
    if Target(op) == Some(fp) {
      RepeatTarget(m, op, fp);
    } else {
      OneRoundPerCall(m, op);
      if op.ExpireAlerts? {
        assert NotifiedAt(Apply(m, op), fp) == NotifiedAt(m, fp);
      }
    }
  }

  lemma RepeatTarget(m: Manager, op: Op, fp: string)
    requires WellKept(m) && InState(m, fp, Firing) && InState(Apply(m, op), fp, Firing) && Target(op) == Some(fp)
    ensures Evaluates(op, fp) && op.met
    ensures var m' := Apply(m, op);
            if RepeatDue(m, fp, op.rule, op.at.now) && !Silenced(m.silences, m.alerts[fp], op.at.check)
            then m'.dispatches == m.dispatches + [Dispatch(fp, Firing, op.at.sent)]
                 && NotifiedAt(m', fp) == Some(op.at.sent)
            else m'.lastNotify == m.lastNotify && m'.dispatches == m.dispatches
  {
    assert op.Evaluate? ==> op.met;
    if op.Evaluate? {
      SilenceIgnoresValue(m.silences, m.alerts[fp], op.value, op.at.check);
    }
  }

  lemma SilenceIgnoresValue(silences: map<nat, Silence>, a: Alert, value: real, now: int)
    ensures Silenced(silences, a.(value := value), now) == Silenced(silences, a, now)
  {
    forall id | id in silences ensures Matches(silences[id], a.(value := value), now) == Matches(silences[id], a, now) {
    }
  }

  predicate SendsRound(m: Manager, m': Manager, fp: string) {
    var d := m'.dispatches;
    d != m.dispatches && d != [] && d[|d| - 1].fingerprint == fp
  }

  /** Nothing new for the alert, or one round; within an episode, an interval after the noted time. */
  ghost predicate Paced(m: Manager, m': Manager, fp: string, interval: int, within: bool) {
    if SendsRound(m, m', fp) then
      var t := m'.dispatches[|m'.dispatches| - 1].time;
      NotifiedAt(m', fp) == Some(t) && (within ==> fp in m.lastNotify && t - m.lastNotify[fp] >= interval)
    else within ==> NotifiedAt(m', fp) == NotifiedAt(m, fp)
  }

  lemma CallIsPaced(m: Manager, op: Op, fp: string, interval: int, within: bool)
    requires WellKept(m) && (within ==> InState(m, fp, Firing) && InState(Apply(m, op), fp, Firing))
    requires (Evaluates(op, fp) ==> op.rule.repeatInterval == interval) && (op.Evaluate? ==> Ordered(op.at))
    ensures Paced(m, Apply(m, op), fp, interval, within)
  {
    if within {
      RepeatStep(m, op, fp);
    } else {
      OneRoundPerCall(m, op);
    }
  }

  lemma CallAtIsPaced(states: seq<Manager>, ops: seq<Op>, k: nat, fp: string, interval: int, within: bool)
    requires Run(states, ops) && k < |ops|
    requires within ==> InState(states[k], fp, Firing) && InState(states[k + 1], fp, Firing)
    requires Evaluates(ops[k], fp) ==> ops[k].rule.repeatInterval == interval
    ensures Paced(states[k], states[k + 1], fp, interval, within)
  {
    RunWellKept(states, ops, k);
    CallIsPaced(states[k], ops[k], fp, interval, within);
  }

  lemma EpisodeIsPaced(states: seq<Manager>, ops: seq<Op>, fp: string, interval: int, a: nat, b: nat)
    requires Run(states, ops) && Episode(states, fp, a, b) && FixedInterval(ops, fp, interval)
    ensures forall k :: a <= k < b ==> Paced(states[k], states[k + 1], fp, interval, a < k)
  {
    forall k | a <= k < b ensures Paced(states[k], states[k + 1], fp, interval, a < k) {
      CallAtIsPaced(states, ops, k, fp, interval, a < k);
    }
  }

  lemma SpacedAppend(ts: seq<int>, t: int, interval: int)
    requires Spaced(ts, interval) && (ts != [] ==> t - ts[|ts| - 1] >= interval)
    ensures Spaced(ts + [t], interval)
  {
  }

  /** The rounds so far are spaced, and the last of them is the one noted. */
  ghost predicate SpacedTo(m: Manager, fp: string, interval: int, rounds: seq<int>) {
    Spaced(rounds, interval) && (rounds != [] ==> NotifiedAt(m, fp) == Some(rounds[|rounds| - 1]))
  }

  lemma PacedCall(m: Manager, m': Manager, fp: string, interval: int, within: bool, rounds: seq<int>)
    requires SpacedTo(m, fp, interval, rounds) && Paced(m, m', fp, interval, within) && (rounds != [] ==> within)
    ensures var d := m'.dispatches;
            SpacedTo(m', fp, interval, rounds + if SendsRound(m, m', fp) then [d[|d| - 1].time] else [])
  {
    if SendsRound(m, m', fp) {
      SpacedAppend(rounds, m'.dispatches[|m'.dispatches| - 1].time, interval);
    } else {
      assert rounds + [] == rounds;
    }
  }

  lemma {:induction false} PacedRounds(states: seq<Manager>, fp: string, interval: int, a: nat, b: nat)
    requires a <= b < |states|
    requires forall k :: a <= k < b ==> Paced(states[k], states[k + 1], fp, interval, a < k)
    ensures SpacedTo(states[b], fp, interval, Rounds(states, fp, a, b))
  {
    if a == b {
    } else {
      PacedRounds(states, fp, interval, a, b - 1);
      assert Paced(states[b - 1], states[b - 1 + 1], fp, interval, a < b - 1);
      PacedCall(states[b - 1], states[b], fp, interval, a < b - 1, Rounds(states, fp, a, b - 1));
    }
  }

  /** Within one firing episode the rounds are at least the repeat interval apart. */
  lemma RoundsAreSpaced(states: seq<Manager>, ops: seq<Op>, fp: string, interval: int, a: nat, b: nat)
    requires Run(states, ops) && Episode(states, fp, a, b) && FixedInterval(ops, fp, interval)
    ensures Spaced(Rounds(states, fp, a, b), interval)
  {
    EpisodeIsPaced(states, ops, fp, interval, a, b);
    PacedRounds(states, fp, interval, a, b);
  }

  lemma {:induction false} SpacedApart(ts: seq<int>, interval: int, i: nat, j: nat)
    requires Spaced(ts, interval) && i <= j < |ts|
    ensures ts[j] - ts[i] >= (j - i) * interval
  {
    if i < j {
      SpacedApart(ts, interval, i, j - 1);
      assert (j - i) * interval == (j - 1 - i) * interval + interval;
    }
  }

  lemma QuotientAtLeast(k: nat, interval: int, span: int)
    requires interval > 0 && k * interval <= span
    ensures k <= span / interval
  {
    var q := span / interval;
    assert span < (q + 1) * interval;
    assert k > q ==> (q + 1) * interval <= k * interval;
  }

  lemma SpacedCount(ts: seq<int>, interval: int, i: nat, j: nat, span: int)
    requires Spaced(ts, interval) && interval > 0 && i <= j < |ts| && ts[j] - ts[i] <= span
    ensures j - i <= span / interval
  {
    SpacedApart(ts, interval, i, j);
    QuotientAtLeast(j - i, interval, span);
  }

  /** Within one firing episode, any span of time holds at most span / interval + 1 rounds. */
  lemma RepeatRateLimited(states: seq<Manager>, ops: seq<Op>, fp: string, interval: int, a: nat, b: nat,
                          i: nat, j: nat, span: int)
    requires Run(states, ops) && Episode(states, fp, a, b) && FixedInterval(ops, fp, interval) && interval > 0
    requires i <= j < |Rounds(states, fp, a, b)|
    requires Rounds(states, fp, a, b)[j] - Rounds(states, fp, a, b)[i] <= span
    ensures j - i + 1 <= span / interval + 1
  {
    RoundsAreSpaced(states, ops, fp, interval, a, b);
    SpacedCount(Rounds(states, fp, a, b), interval, i, j, span);
  }

  lemma SilentStep(m: Manager, op: Op, fp: string)
    requires WellKept(m) && InState(m, fp, Firing) && InState(Apply(m, op), fp, Firing) && fp !in m.lastNotify
    ensures fp !in Apply(m, op).lastNotify && !SendsRound(m, Apply(m, op), fp)
  {
    RepeatStep(m, op, fp);
  }

  lemma SilentCallAt(states: seq<Manager>, ops: seq<Op>, k: nat, fp: string)
    requires Run(states, ops) && k < |ops| && InState(states[k], fp, Firing) && InState(states[k + 1], fp, Firing)
    requires fp !in states[k].lastNotify
    ensures fp !in states[k + 1].lastNotify && !SendsRound(states[k], states[k + 1], fp)
  {
    RunWellKept(states, ops, k);
    SilentStep(states[k], ops[k], fp);
  }

  lemma SilentCalls(states: seq<Manager>, ops: seq<Op>, fp: string, a: nat, b: nat)
    requires Run(states, ops) && Episode(states, fp, a, b) && InState(states[a], fp, Firing)
    ensures forall k :: a <= k < b && fp !in states[k].lastNotify ==>
              fp !in states[k + 1].lastNotify && !SendsRound(states[k], states[k + 1], fp)
  {
    forall k | a <= k < b && fp !in states[k].lastNotify
      ensures fp !in states[k + 1].lastNotify && !SendsRound(states[k], states[k + 1], fp)
    {
      SilentCallAt(states, ops, k, fp);
    }
  }

  lemma {:induction false} SilentRounds(states: seq<Manager>, fp: string, a: nat, b: nat)
    requires a <= b < |states| && fp !in states[a].lastNotify
    requires forall k :: a <= k < b && fp !in states[k].lastNotify ==>
              fp !in states[k + 1].lastNotify && !SendsRound(states[k], states[k + 1], fp)
    ensures Rounds(states, fp, a, b) == [] && fp !in states[b].lastNotify
  {
    if a < b {
      SilentRounds(states, fp, a, b - 1);
      assert !SendsRound(states[b - 1], states[b - 1 + 1], fp);
    }
  }

  /** A firing alert without a notification time stays without one, and silent, for as long as it fires. */
  lemma SilentStartStaysSilent(states: seq<Manager>, ops: seq<Op>, fp: string, a: nat, b: nat)
    requires Run(states, ops) && Episode(states, fp, a, b)
    requires InState(states[a], fp, Firing) && fp !in states[a].lastNotify
    ensures Rounds(states, fp, a, b) == [] && fp !in states[b].lastNotify
  {
    SilentCalls(states, ops, fp, a, b);
    SilentRounds(states, fp, a, b);
  }

  // ---------- repeats after a suppressed start ----------

  function At(t: int): Readings {
    Readings(t, t, t, t)
  }

  function After(m: Manager, ops: seq<Op>): Manager {
    Fold(Apply, m, ops)
  }

  /** Calls that read the clock, in order, no earlier than the given time. */
  predicate Timely(op: Op, since: int) {
    op.Evaluate? || op.Resolve? ==> Ordered(op.at) && since <= op.at.now
  }

  /** The alert fires after each of the calls. */
  ghost predicate KeepsFiring(m: Manager, ops: seq<Op>, fp: string) {
    forall k :: 0 <= k <= |ops| ==> InState(After(m, ops[..k]), fp, Firing)
  }

  /** The last of the calls sends a round for the alert, which fires all along and is evaluated by its rule. */
  ghost predicate SendsAtLast(m: Manager, ops: seq<Op>, rule: Rule, since: int) {
    var fp := rule.fingerprint;
    && ops != [] && (forall op :: op in ops ==> Timely(op, since) && (Evaluates(op, fp) ==> op.rule == rule))
    && KeepsFiring(m, ops, fp)
    && SendsRound(After(m, ops[..|ops| - 1]), After(m, ops), fp)
  }

  ghost predicate CanSendWhileFiring(m: Manager, rule: Rule, since: int) {
    exists ops :: SendsAtLast(m, ops, rule, since)
  }

  lemma AfterOne(m: Manager, ops: seq<Op>)
    requires ops != []
    ensures After(m, ops) == Apply(After(m, ops[..|ops| - 1]), ops[|ops| - 1])
  {
  }

  lemma {:induction false} StaysUnnoted(m: Manager, ops: seq<Op>, fp: string)
    requires WellKept(m) && fp !in m.lastNotify && KeepsFiring(m, ops, fp)
    ensures WellKept(After(m, ops)) && fp !in After(m, ops).lastNotify
    ensures ops != [] ==> !SendsRound(After(m, ops[..|ops| - 1]), After(m, ops), fp)
  {
    if ops == [] {
    } else {
      var n := |ops| - 1;
      var front := ops[..n];
      assert forall k :: 0 <= k <= n ==> front[..k] == ops[..k];
      assert ops[..|ops|] == ops;
      StaysUnnoted(m, front, fp);
      AfterOne(m, ops);
      ApplyKeepsWellKept(After(m, front), ops[n]);
      SilentStep(After(m, front), ops[n], fp);
    }
  }

  /** A time by which all silences are over. */
  lemma {:induction false} SilencesEnd(silences: map<nat, Silence>, since: int) returns (t: int)
    ensures since <= t && forall id :: id in silences ==> silences[id].endsAt <= t
    decreases |silences|
  {
    if silences == map[] {
      t := since;
    } else {
      var id :| id in silences;
      var rest := silences - {id};
      assert rest.Keys == silences.Keys - {id};
      assert |rest.Keys| < |silences.Keys|;
      t := SilencesEnd(rest, since);
      if t < silences[id].endsAt {
        t := silences[id].endsAt;
      }
      assert forall j :: j in silences ==> j == id || j in rest;
    }
  }

  /** A firing alert with a noted time is notified again once the silences and the interval are over. */
  lemma NotedCanSend(m: Manager, rule: Rule, since: int)
    requires WellKept(m) && InState(m, rule.fingerprint, Firing) && rule.fingerprint in m.lastNotify
    ensures CanSendWhileFiring(m, rule, since)
  {
    var fp := rule.fingerprint;
    var over := SilencesEnd(m.silences, since);
    var due := m.lastNotify[fp] + rule.repeatInterval;
    var t := if over < due then due else over;
    assert !Silenced(m.silences, m.alerts[fp].(value := 0.0), t);
    SendsOnce(m, Evaluate(rule, true, 0.0, At(t), []), rule, since);
  }

  lemma SendsOnce(m: Manager, op: Op, rule: Rule, since: int)
    requires Evaluates(op, rule.fingerprint) && op.rule == rule && Timely(op, since)
    requires InState(m, rule.fingerprint, Firing) && InState(Apply(m, op), rule.fingerprint, Firing)
    requires SendsRound(m, Apply(m, op), rule.fingerprint)
    ensures CanSendWhileFiring(m, rule, since)
  {
    var ops := [op];
    assert ops[..0] == [] && ops[..1] == ops;
    AfterOne(m, ops);
    assert After(m, []) == m;
    assert forall k :: 0 <= k <= 1 ==> ops[..k] == [] || ops[..k] == ops;
    assert SendsAtLast(m, ops, rule, since);
  }

  /**
    After a suppressed start, evaluations by the same rule can still send a round in the same firing
    episode if and only if a notification time was noted before that start, by an earlier episode.
   */
  lemma SuppressedStartRepeatsIff(states: seq<Manager>, ops: seq<Op>, a: nat, fp: string)
    requires Run(states, ops) && a < |ops| && fp in Moved(states[a], states[a + 1], Pending, Firing)
    requires Silenced(states[a].silences, states[a + 1].alerts[fp], ops[a].at.check)
    ensures Evaluates(ops[a], fp)
    ensures CanSendWhileFiring(states[a + 1], ops[a].rule, ops[a].at.sent) <==> fp in states[a].lastNotify
  {
    var m, m' := states[a], states[a + 1];
    RunWellKept(states, ops, a);
    RunWellKept(states, ops, a + 1);
    FiringNotifiesOrIsSuppressed(m, ops[a], fp);
    BecomesFiring(m, ops[a], fp);
    if fp in m.lastNotify {
      NotedCanSend(m', ops[a].rule, ops[a].at.sent);
    } else {
      forall more | KeepsFiring(m', more, fp) && more != []
        ensures !SendsRound(After(m', more[..|more| - 1]), After(m', more), fp)
      {
        StaysUnnoted(m', more, fp);
      }
    }
  }

  function Met(rule: Rule, t: int): Op {
    Evaluate(rule, true, 1.0, At(t), [])
  }

  function Unmet(rule: Rule, t: int): Op {
    Evaluate(rule, false, 1.0, At(t), [])
  }

  lemma NextCall(states: seq<Manager>, ops: seq<Op>, k: nat)
    requires Run(states, ops) && k < |ops|
    ensures states[k + 1] == Apply(states[k], ops[k])
  {
  }

  lemma NextMet(states: seq<Manager>, ops: seq<Op>, k: nat, rule: Rule, t: int)
    requires Run(states, ops) && k < |ops| && ops[k] == Met(rule, t)
    ensures states[k + 1] == EvaluateMet(states[k], rule, 1.0, At(t), [])
  {
    NextCall(states, ops, k);
  }

  lemma NextUnmet(states: seq<Manager>, ops: seq<Op>, k: nat, rule: Rule, t: int)
    requires Run(states, ops) && k < |ops| && ops[k] == Unmet(rule, t)
    ensures states[k + 1] == EvaluateUnmet(states[k], rule, At(t), [])
  {
    NextCall(states, ops, k);
  }

  /**
    An alert fires at 2 and is resolved at 3, with a round each; it is pending again at 4, silenced, and
    fires at 6 without a round.  With the silence gone, the evaluation at 20 sends one in that episode.
   */
  lemma NotedInEarlierEpisode(states: seq<Manager>, ops: seq<Op>, rule: Rule)
    requires Run(states, ops) && states[0].maxSilences == 1 && rule == Rule("f", map[], 1, 5)
    requires |ops| == 8 && ops[0] == Met(rule, 0) && ops[1] == Met(rule, 2) && ops[2] == Unmet(rule, 3)
    requires ops[3] == Met(rule, 4) && ops[4] == AddSilence(Silence(1, map[], 0, 10)) && ops[5] == Met(rule, 6)
    requires ops[6] == DropSilence(1) && ops[7] == Met(rule, 20)
    ensures InState(states[5], "f", Pending) && InState(states[6], "f", Firing) && InState(states[7], "f", Firing)
    ensures states[6].suppressed == states[5].suppressed + 1 && states[6].dispatches == states[5].dispatches
    ensures InState(states[8], "f", Firing)
    ensures states[8].dispatches == states[6].dispatches + [Dispatch("f", Firing, 20)]
  {
    NextMet(states, ops, 0, rule, 0);
    NextMet(states, ops, 1, rule, 2);
    NextUnmet(states, ops, 2, rule, 3);
    NextMet(states, ops, 3, rule, 4);
    NextCall(states, ops, 4);
    NextMet(states, ops, 5, rule, 6);
    NextCall(states, ops, 6);
    NextMet(states, ops, 7, rule, 20);
    FiresAndResolves(states[0], states[1], states[2], states[3], rule);
    PendingAgain(states[3], states[4], states[5], rule);
    SilentThenNotified(states[5], states[6], states[7], states[8], rule);
  }

  lemma FiresAndResolves(m0: Manager, m1: Manager, m2: Manager, m3: Manager, rule: Rule)
    requires m0 == Initial(m0.resolveTimeout, 1) && rule == Rule("f", map[], 1, 5)
    requires m1 == EvaluateMet(m0, rule, 1.0, At(0), []) && m2 == EvaluateMet(m1, rule, 1.0, At(2), [])
    requires m3 == EvaluateUnmet(m2, rule, At(3), [])
    ensures InState(m3, "f", Resolved) && m3.alerts["f"].fingerprint == "f"
    ensures m3.lastNotify == map["f" := 3] && m3.silences == map[] && m3.maxSilences == 1
  {
    assert InState(m1, "f", Pending) && m1.alerts["f"].updatedAt == 0;
    assert InState(m2, "f", Firing) && m2.alerts["f"].fingerprint == "f";
  }

  lemma PendingAgain(m3: Manager, m4: Manager, m5: Manager, rule: Rule)
    requires InState(m3, "f", Resolved) && m3.alerts["f"].fingerprint == "f" && rule == Rule("f", map[], 1, 5)
    requires m3.lastNotify == map["f" := 3] && m3.silences == map[] && m3.maxSilences == 1
    requires m4 == EvaluateMet(m3, rule, 1.0, At(4), [])
    requires m5 == Apply(m4, AddSilence(Silence(1, map[], 0, 10)))
    ensures InState(m5, "f", Pending) && m5.alerts["f"].fingerprint == "f" && m5.alerts["f"].updatedAt == 4
    ensures m5.lastNotify == map["f" := 3] && m5.silences == map[1 := Silence(1, map[], 0, 10)]
  {
    assert |m4.silences| == 0;
  }

  lemma SilentThenNotified(m5: Manager, m6: Manager, m7: Manager, m8: Manager, rule: Rule)
    requires InState(m5, "f", Pending) && m5.alerts["f"].fingerprint == "f" && m5.alerts["f"].updatedAt == 4
    requires m5.lastNotify == map["f" := 3] && m5.silences == map[1 := Silence(1, map[], 0, 10)]
    requires rule == Rule("f", map[], 1, 5) && m6 == EvaluateMet(m5, rule, 1.0, At(6), [])
    requires m7 == Apply(m6, DropSilence(1)) && m8 == EvaluateMet(m7, rule, 1.0, At(20), [])
    ensures InState(m6, "f", Firing) && m6.suppressed == m5.suppressed + 1 && m6.dispatches == m5.dispatches
    ensures InState(m7, "f", Firing) && InState(m8, "f", Firing)
    ensures m8.dispatches == m6.dispatches + [Dispatch("f", Firing, 20)]
  {
    var b := TransitionTo(m5.alerts["f"].(value := 1.0), Firing, 6);
    assert 1 in m5.silences && Matches(m5.silences[1], b, 6);
    assert m7.silences == map[];
  }

  // ---------- silences ----------

  /** Some silence that cleanup keeps stands in for s: it asks no more of an alert and lasts at least as long. */
  ghost predicate StoodInFor(m: Manager, s: Silence, now: int) {
    exists id :: id in m.silences && IsActive(m.silences[id], now)
                 && m.silences[id].matchers.Items <= s.matchers.Items && m.silences[id].endsAt >= s.endsAt
  }

  ghost predicate VerdictsKept(m: Manager, now: int) {
    forall a: Alert, later :: now <= later ==>
      (Silenced(CleanupSilences(m, now).silences, a, later) <==> Silenced(m.silences, a, later))
  }

  lemma StandInMatches(k: Silence, s: Silence, a: Alert, now: int, later: int)
    requires IsActive(k, now) && now <= later && Matches(s, a, later)
    requires k.matchers.Items <= s.matchers.Items && k.endsAt >= s.endsAt
    ensures Matches(k, a, later)
  {
    forall key | key in k.matchers ensures LabelOf(a.labels, key) == k.matchers[key] {
      assert (key, k.matchers[key]) in s.matchers.Items;
    }
  }

  lemma {:induction false} LongerThanAll(names: set<string>) returns (x: string)
    ensures forall n :: n in names ==> |n| < |x|
  {
    if names == {} {
      x := "x";
    } else {
      var n :| n in names;
      var y := LongerThanAll(names - {n});
      x := y + n + "x";
    }
  }

  /** An alert that only silences asking no more than s match: every other label has an unheard-of value. */
  lemma StrictAlert(m: Manager, s: Silence) returns (a: Alert)
    ensures forall k :: k in s.matchers ==> LabelOf(a.labels, k) == s.matchers[k]
    ensures forall id, k ::
              id in m.silences && k in m.silences[id].matchers && LabelOf(a.labels, k) == m.silences[id].matchers[k] ==>
                (k, m.silences[id].matchers[k]) in s.matchers.Items
  {
    var values := set id, k | id in m.silences && k in m.silences[id].matchers :: m.silences[id].matchers[k];
    var keys := (set id, k | id in m.silences && k in m.silences[id].matchers :: k) + s.matchers.Keys;
    var other := LongerThanAll(values);
    a := Alert("", map k | k in keys :: if k in s.matchers then s.matchers[k] else other, Pending, 0.0, 0, None, None);
    forall id, k | id in m.silences && k in m.silences[id].matchers
                     && LabelOf(a.labels, k) == m.silences[id].matchers[k]
      ensures (k, m.silences[id].matchers[k]) in s.matchers.Items
    {
      assert k in keys && m.silences[id].matchers[k] in values;
    }
  }

  lemma WaitingNeedsStandIn(m: Manager, now: int, id: nat)
    requires id in m.silences && now < m.silences[id].startsAt < m.silences[id].endsAt && VerdictsKept(m, now)
    ensures StoodInFor(m, m.silences[id], now)
  {
    var s := m.silences[id];
    var a := StrictAlert(m, s);
    var later := s.endsAt - 1;
    assert Matches(m.silences[id], a, later);
    var kept := CleanupSilences(m, now).silences;
    assert Silenced(m.silences, a, later);
    assert Silenced(kept, a, later);
    var j :| j in kept && Matches(kept[j], a, later);
    assert IsActive(m.silences[j], now) && m.silences[j].endsAt >= s.endsAt;
    forall p | p in m.silences[j].matchers.Items ensures p in s.matchers.Items {
      assert p.0 in m.silences[j].matchers && LabelOf(a.labels, p.0) == m.silences[j].matchers[p.0];
    }
  }

  lemma StandInsKeepVerdict(m: Manager, now: int, a: Alert, later: int)
    requires forall id :: id in m.silences && now < m.silences[id].startsAt < m.silences[id].endsAt ==>
               StoodInFor(m, m.silences[id], now)
    requires now <= later && Silenced(m.silences, a, later)
    ensures Silenced(CleanupSilences(m, now).silences, a, later)
  {
    var kept := CleanupSilences(m, now).silences;
    var id :| id in m.silences && Matches(m.silences[id], a, later);
    if id in kept {
      assert Matches(kept[id], a, later);
    } else {
      assert StoodInFor(m, m.silences[id], now);
      var j :| j in m.silences && IsActive(m.silences[j], now)
               && m.silences[j].matchers.Items <= m.silences[id].matchers.Items
               && m.silences[j].endsAt >= m.silences[id].endsAt;
      StandInMatches(m.silences[j], m.silences[id], a, now, later);
      assert j in kept && Matches(kept[j], a, later);
    }
  }

  /**
    Cleanup never changes whether any alert is silenced, then or later, if and only if every silence still
    waiting to start (and not empty) has an active one that asks no more of an alert and lasts as long.
   */
  lemma CleanupKeepsVerdictsIff(m: Manager, now: int)
    ensures VerdictsKept(m, now) <==>
              forall id :: id in m.silences && now < m.silences[id].startsAt < m.silences[id].endsAt ==>
                StoodInFor(m, m.silences[id], now)
  {
    if VerdictsKept(m, now) {
      forall id | id in m.silences && now < m.silences[id].startsAt < m.silences[id].endsAt
        ensures StoodInFor(m, m.silences[id], now)
      {
        WaitingNeedsStandIn(m, now, id);
      }
    } else {
      var a: Alert, later :| now <= later
                             && Silenced(CleanupSilences(m, now).silences, a, later) != Silenced(m.silences, a, later);
      KeptStillSilence(m, now, a, later);
      if forall id :: id in m.silences && now < m.silences[id].startsAt < m.silences[id].endsAt ==>
           StoodInFor(m, m.silences[id], now) {
        StandInsKeepVerdict(m, now, a, later);
      }
    }
  }

  lemma KeptStillSilence(m: Manager, now: int, a: Alert, later: int)
    ensures Silenced(CleanupSilences(m, now).silences, a, later) ==> Silenced(m.silences, a, later)
  {
    var kept := CleanupSilences(m, now).silences;
    if Silenced(kept, a, later) {
      var id :| id in kept && Matches(kept[id], a, later);
      assert id in m.silences && Matches(m.silences[id], a, later);
    }
  }

  /** When none is waiting to start, cleanup changes no verdict from then on. */
  lemma CleanupKeepsVerdicts(m: Manager, now: int, a: Alert, later: int)
    requires forall id :: id in m.silences ==> m.silences[id].startsAt <= now || m.silences[id].endsAt <= now
    requires now <= later
    ensures Silenced(CleanupSilences(m, now).silences, a, later) == Silenced(m.silences, a, later)
  {
    CleanupKeepsVerdictsIff(m, now);
    assert VerdictsKept(m, now);
  }

  /**
    A maintenance window announced for [10, 20) is forgotten by a cleanup at 5, and the alert is not
    silenced at 15.
   */
  lemma ScheduledSilenceForgotten(a: Alert)
    ensures var m := Apply(Initial(0, 1), AddSilence(Silence(1, map[], 10, 20)));
            Silenced(m.silences, a, 15) && !Silenced(Apply(m, ExpireSilences(5)).silences, a, 15)
  {
    var m := Apply(Initial(0, 1), AddSilence(Silence(1, map[], 10, 20)));
    assert 1 in m.silences && Matches(m.silences[1], a, 15);
    assert Apply(m, ExpireSilences(5)).silences == map[];
  }
}
