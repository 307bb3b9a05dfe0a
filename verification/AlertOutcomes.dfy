/**
  What each call does to an alert and which rounds it sends, stated on the states before and after it in a
  run: the whole lifecycle, from the calls alone.
 */
module AlertOutcomes {
  import opened Options
  import opened AlertManagers
  import opened AlertRuns

  // ---------- states ----------

  /** An evaluation whose condition holds: the alert fires exactly when it was pending for the rule's duration. */
  lemma MetOutcome(states: seq<Manager>, ops: seq<Op>, i: nat, fp: string)
    requires Run(states, ops) && i < |ops| && Evaluates(ops[i], fp) && ops[i].met
    ensures var m, m', op := states[i], states[i + 1], ops[i];
      && fp in m'.alerts
      && m'.alerts[fp].state
           == if fp !in m.alerts || m.alerts[fp].state.Inactive? || m.alerts[fp].state.Resolved? then Pending
              else if m.alerts[fp].state.Firing? || op.at.now - m.alerts[fp].updatedAt >= op.rule.forDuration
              then Firing
              else Pending
  {
    RunWellKept(states, ops, i);
    TargetAlert(states[i], ops[i], fp);
  }

  /** An evaluation whose condition does not hold. */
  lemma UnmetOutcome(states: seq<Manager>, ops: seq<Op>, i: nat, fp: string)
    requires Run(states, ops) && i < |ops| && Evaluates(ops[i], fp) && !ops[i].met
    ensures var m, m' := states[i], states[i + 1];
      && (fp in m'.alerts <==> fp in m.alerts)
      && (fp in m.alerts ==>
            m'.alerts[fp].state == match m.alerts[fp].state
                                   case Pending => Inactive
                                   case Firing => Resolved
                                   case other => other)
  {
    RunWellKept(states, ops, i);
    TargetAlert(states[i], ops[i], fp);
  }

  /** Resolving by hand: only a firing alert changes. */
  lemma HandOutcome(states: seq<Manager>, ops: seq<Op>, i: nat, fp: string)
    requires Run(states, ops) && i < |ops| && ops[i].Resolve? && ops[i].fp == fp
    ensures var m, m' := states[i], states[i + 1];
      && (fp in m'.alerts <==> fp in m.alerts)
      && (fp in m.alerts ==>
            m'.alerts[fp].state == if m.alerts[fp].state.Firing? then Resolved else m.alerts[fp].state)
  {
    RunWellKept(states, ops, i);
    TargetAlert(states[i], ops[i], fp);
  }

  /**
    The converse of FiringHasHistory: an alert pending since call i fires at a later evaluation that meets the
    condition if and only if the rule's duration is over by then; otherwise it stays pending.
   */
  lemma PendingFiresIff(states: seq<Manager>, ops: seq<Op>, fp: string, i: nat, j: nat)
    requires Run(states, ops) && PendingSince(states, ops, fp, i, j) && j < |ops|
    requires Evaluates(ops[j], fp) && ops[j].met
    ensures InState(states[j + 1], fp, Firing) <==> ops[j].at.now - ops[i].at.stamp >= ops[j].rule.forDuration
    ensures InState(states[j + 1], fp, Firing) || InState(states[j + 1], fp, Pending)
  {
    MetOutcome(states, ops, j, fp);
  }

  // ---------- fields ----------

  /** What a call aimed at a stored alert may do to its fields. */
  ghost predicate Steps(a: Alert, a': Alert, op: Op)
    requires op.Evaluate? || op.Resolve?
  {
    && a'.labels == a.labels && a'.fingerprint == a.fingerprint
    && a'.value == (if op.Evaluate? && op.met then op.value else a.value)
    && a'.updatedAt == (if a'.state != a.state then op.at.stamp else a.updatedAt)
    && a'.startedAt == (if a.startedAt == None && a'.state.Firing? && !a.state.Firing? then Some(op.at.stamp)
                        else a.startedAt)
    && a'.resolvedAt == (if a'.state.Resolved? && !a.state.Resolved? then Some(op.at.stamp) else a.resolvedAt)
  }

  lemma EvaluationSteps(m: Manager, op: Op, fp: string)
    requires WellKept(m) && Evaluates(op, fp) && fp in m.alerts
    ensures fp in Apply(m, op).alerts && Steps(m.alerts[fp], Apply(m, op).alerts[fp], op)
  {
    TargetAlert(m, op, fp);
  }

  lemma HandSteps(m: Manager, op: Op, fp: string)
    requires WellKept(m) && op.Resolve? && op.fp == fp && fp in m.alerts
    ensures fp in Apply(m, op).alerts && Steps(m.alerts[fp], Apply(m, op).alerts[fp], op)
  {
    TargetAlert(m, op, fp);
  }

  /**
    A call aimed at a stored alert keeps its labels; the value is that of the latest met evaluation, the
    update stamp that of the latest change of state, the start that of the first firing.
   */
  lemma FieldsFollowCalls(states: seq<Manager>, ops: seq<Op>, i: nat, fp: string)
    requires Run(states, ops) && i < |ops| && Target(ops[i]) == Some(fp) && fp in states[i].alerts
    ensures fp in states[i + 1].alerts
    ensures Steps(states[i].alerts[fp], states[i + 1].alerts[fp], ops[i])
  {
    RunWellKept(states, ops, i);
    if ops[i].Evaluate? {
      EvaluationSteps(states[i], ops[i], fp);
    } else {
      HandSteps(states[i], ops[i], fp);
    }
  }

  /** A new alert has the labels and the value of the evaluation that created it, and never fired. */
  lemma NewAlert(states: seq<Manager>, ops: seq<Op>, i: nat, fp: string)
    requires Run(states, ops) && i < |ops| && fp !in states[i].alerts && fp in states[i + 1].alerts
    ensures Evaluates(ops[i], fp) && ops[i].met
    ensures states[i + 1].alerts[fp]
         == Alert(fp, ops[i].rule.labels, Pending, ops[i].value, ops[i].at.stamp, None, None)
  {
    RunWellKept(states, ops, i);
    if Target(ops[i]) == Some(fp) {
      TargetAlert(states[i], ops[i], fp);
    } else {
      OthersUntouched(states[i], ops[i], fp);
    }
  }

  /**
    An alert is gone after a call if and only if the call cleans up alerts and finds it resolved, last
    changed longer ago than the timeout.
   */
  lemma ErasedIff(states: seq<Manager>, ops: seq<Op>, i: nat, fp: string)
    requires Run(states, ops) && i < |ops| && fp in states[i].alerts
    ensures fp !in states[i + 1].alerts <==>
              ops[i].ExpireAlerts? && states[i].alerts[fp].state.Resolved?
              && ops[i].now - states[i].alerts[fp].updatedAt > states[i].resolveTimeout
    ensures !ops[i].Evaluate? && !ops[i].Resolve? && fp in states[i + 1].alerts ==>
              states[i + 1].alerts[fp] == states[i].alerts[fp]
  {
    OnlyExpiredErased(states[i], ops[i], fp);
    if !ops[i].Evaluate? && !ops[i].Resolve? {
      OthersUntouched(states[i], ops[i], fp);
    }
  }

  // ---------- rounds ----------

  lemma SilencedByLabels(silences: map<nat, Silence>, a: Alert, b: Alert, now: int)
    requires a.labels == b.labels
    ensures Silenced(silences, a, now) == Silenced(silences, b, now)
  {
    forall id | id in silences ensures Matches(silences[id], a, now) == Matches(silences[id], b, now) {
    }
  }

  /** A round goes to all notifiers: those that deliver and those that reject it are counted, the others are not. */
  ghost predicate Counted(m: Manager, m': Manager, replies: seq<Reply>, rounds: seq<Dispatch>) {
    && m'.dispatches == m.dispatches + rounds
    && m'.sent == m.sent + (if rounds == [] then 0 else multiset(replies)[Delivered])
    && m'.failed == m.failed + (if rounds == [] then 0 else multiset(replies)[Rejected])
  }

  lemma UnmetRounds(m: Manager, op: Op, fp: string)
    requires WellKept(m) && Evaluates(op, fp) && !op.met
    ensures Counted(m, Apply(m, op), op.replies,
                    if InState(m, fp, Firing) && !Silenced(m.silences, m.alerts[fp], op.at.check)
                    then [Dispatch(fp, Resolved, op.at.sent)] else [])
  {
    if InState(m, fp, Firing) {
      SilencedByLabels(m.silences, m.alerts[fp], TransitionTo(m.alerts[fp], Resolved, op.at.stamp), op.at.check);
    }
    assert m.dispatches + [] == m.dispatches;
  }

  lemma PendingRounds(m: Manager, op: Op, fp: string)
    requires WellKept(m) && Evaluates(op, fp) && op.met && InState(m, fp, Pending)
    ensures Counted(m, Apply(m, op), op.replies,
                    if op.at.now - m.alerts[fp].updatedAt >= op.rule.forDuration
                       && !Silenced(m.silences, m.alerts[fp], op.at.check)
                    then [Dispatch(fp, Firing, op.at.sent)] else [])
  {
    var b := TransitionTo(m.alerts[fp].(value := op.value), Firing, op.at.stamp);
    SilencedByLabels(m.silences, m.alerts[fp], b, op.at.check);
    assert m.dispatches + [] == m.dispatches;
  }

  lemma FiringRounds(m: Manager, op: Op, fp: string)
    requires WellKept(m) && Evaluates(op, fp) && op.met && InState(m, fp, Firing)
    ensures Counted(m, Apply(m, op), op.replies,
                    if fp in m.lastNotify && op.at.now - m.lastNotify[fp] >= op.rule.repeatInterval
                       && !Silenced(m.silences, m.alerts[fp], op.at.check)
                    then [Dispatch(fp, Firing, op.at.sent)] else [])
  {
    SilencedByLabels(m.silences, m.alerts[fp], m.alerts[fp].(value := op.value), op.at.check);
    assert m.dispatches + [] == m.dispatches;
  }

  lemma IdleRounds(m: Manager, op: Op, fp: string)
    requires WellKept(m) && Evaluates(op, fp) && op.met && !InState(m, fp, Pending) && !InState(m, fp, Firing)
    ensures Counted(m, Apply(m, op), op.replies, [])
  {
    assert m.dispatches + [] == m.dispatches;
  }

  lemma HandRounds(m: Manager, op: Op, fp: string)
    requires WellKept(m) && op.Resolve? && op.fp == fp
    ensures Counted(m, Apply(m, op), op.replies,
                    if InState(m, fp, Firing) then [Dispatch(fp, Resolved, op.at.sent)] else [])
  {
    assert m.dispatches + [] == m.dispatches;
  }

  /**
    An evaluation that takes an alert from firing to resolved sends exactly one round, of its resolution, if
    no silence covers the alert, and none otherwise; no other evaluation that is not met sends anything.
   */
  lemma ResolutionAsksSilences(states: seq<Manager>, ops: seq<Op>, i: nat, fp: string)
    requires Run(states, ops) && i < |ops| && Evaluates(ops[i], fp) && !ops[i].met
    ensures var m, m', op := states[i], states[i + 1], ops[i];
            var rounds := if InState(m, fp, Firing) && !Silenced(m.silences, m.alerts[fp], op.at.check)
                          then [Dispatch(fp, Resolved, op.at.sent)] else [];
      && m'.dispatches == m.dispatches + rounds
      && m'.sent == m.sent + (if rounds == [] then 0 else multiset(op.replies)[Delivered])
      && m'.failed == m.failed + (if rounds == [] then 0 else multiset(op.replies)[Rejected])
  {
    RunWellKept(states, ops, i);
    UnmetRounds(states[i], ops[i], fp);
  }

  /**
    An evaluation that is met sends a round exactly when it starts the firing, or the interval is over, and no
    silence matches.
   */
  lemma FiringAsksSilences(states: seq<Manager>, ops: seq<Op>, i: nat, fp: string)
    requires Run(states, ops) && i < |ops| && Evaluates(ops[i], fp) && ops[i].met
    ensures var m, m', op := states[i], states[i + 1], ops[i];
            var due := || (InState(m, fp, Pending) && op.at.now - m.alerts[fp].updatedAt >= op.rule.forDuration)
                       || (InState(m, fp, Firing) && fp in m.lastNotify
                           && op.at.now - m.lastNotify[fp] >= op.rule.repeatInterval);
            var rounds := if due && !Silenced(m.silences, m.alerts[fp], op.at.check)
                          then [Dispatch(fp, Firing, op.at.sent)] else [];
      && m'.dispatches == m.dispatches + rounds
      && m'.sent == m.sent + (if rounds == [] then 0 else multiset(op.replies)[Delivered])
      && m'.failed == m.failed + (if rounds == [] then 0 else multiset(op.replies)[Rejected])
  {
    RunWellKept(states, ops, i);
    if InState(states[i], fp, Pending) {
      PendingRounds(states[i], ops[i], fp);
    } else if InState(states[i], fp, Firing) {
      FiringRounds(states[i], ops[i], fp);
    } else {
      IdleRounds(states[i], ops[i], fp);
    }
  }

  /** Resolving a firing alert by hand sends exactly one round, silenced or not; any other sends none. */
  lemma HandAsksNoSilence(states: seq<Manager>, ops: seq<Op>, i: nat, fp: string)
    requires Run(states, ops) && i < |ops| && ops[i].Resolve? && ops[i].fp == fp
    ensures var m, m', op := states[i], states[i + 1], ops[i];
            var rounds := if InState(m, fp, Firing) then [Dispatch(fp, Resolved, op.at.sent)] else [];
      && m'.dispatches == m.dispatches + rounds
      && m'.sent == m.sent + (if rounds == [] then 0 else multiset(op.replies)[Delivered])
      && m'.failed == m.failed + (if rounds == [] then 0 else multiset(op.replies)[Rejected])
  {
    RunWellKept(states, ops, i);
    HandRounds(states[i], ops[i], fp);
  }

  /** The other calls send nothing and count nothing. */
  lemma OthersSendNothing(states: seq<Manager>, ops: seq<Op>, i: nat)
    requires Run(states, ops) && i < |ops| && !ops[i].Evaluate? && !ops[i].Resolve?
    ensures var m, m' := states[i], states[i + 1];
            m'.dispatches == m.dispatches && m'.sent == m.sent && m'.failed == m.failed
  {
  }

  /**
    The alert is noted as notified after a call exactly if the call sent its round, or it was before and is
    still stored.
   */
  lemma NotedIff(states: seq<Manager>, ops: seq<Op>, i: nat, fp: string)
    requires Run(states, ops) && i < |ops|
    ensures var m, m' := states[i], states[i + 1];
            var sent := Target(ops[i]) == Some(fp) && m'.dispatches != m.dispatches;
      && (fp in m'.lastNotify <==> sent || (fp in m.lastNotify && fp in m'.alerts))
      && (fp in m'.lastNotify ==> m'.lastNotify[fp] == if sent then ops[i].at.sent else m.lastNotify[fp])
  {
    RunWellKept(states, ops, i);
    RunWellKept(states, ops, i + 1);
    if ops[i].Evaluate? || ops[i].Resolve? {
      TargetNoted(states[i], ops[i], fp);
    } else {
      OthersNote(states[i], ops[i], fp);
    }
  }

  lemma OthersNote(m: Manager, op: Op, fp: string)
    requires WellKept(m) && !op.Evaluate? && !op.Resolve?
    ensures var m' := Apply(m, op);
      && (fp in m'.lastNotify <==> fp in m.lastNotify && fp in m'.alerts)
      && (fp in m'.lastNotify ==> m'.lastNotify[fp] == m.lastNotify[fp])
  {
  }

  lemma TargetNoted(m: Manager, op: Op, fp: string)
    requires WellKept(m) && (op.Evaluate? || op.Resolve?)
    ensures var m' := Apply(m, op); var sent := Target(op) == Some(fp) && m'.dispatches != m.dispatches;
      && (fp in m'.lastNotify <==> sent || (fp in m.lastNotify && fp in m'.alerts))
      && (fp in m'.lastNotify ==> m'.lastNotify[fp] == if sent then op.at.sent else m.lastNotify[fp])
  {
    var m' := Apply(m, op);
    RoundOrNot(m, op);
    ApplyKeepsWellKept(m, op);
    if fp in m.alerts {
      StillStored(m, op, fp);
    }
  }

  lemma StillStored(m: Manager, op: Op, fp: string)
    requires (op.Evaluate? || op.Resolve?) && fp in m.alerts
    ensures fp in Apply(m, op).alerts
  {
    if Target(op) == Some(fp) {
      TouchesTarget(m, op, fp);
    } else {
      OthersUntouched(m, op, fp);
    }
  }

  /** Either nothing is sent and noted, or one round is sent and its time noted. */
  lemma RoundOrNot(m: Manager, op: Op)
    requires WellKept(m) && (op.Evaluate? || op.Resolve?)
    ensures var m' := Apply(m, op); var fp := Target(op).value;
            || (m'.dispatches == m.dispatches && m'.lastNotify == m.lastNotify)
            || (|m'.dispatches| == |m.dispatches| + 1 && m'.lastNotify == m.lastNotify[fp := op.at.sent])
  {
    match op {
      case Evaluate(rule, met, value, at, replies) =>
        if met {
          MetRound(m, rule, value, at, replies);
        } else {
          UnmetRound(m, rule, at, replies);
        }
      case Resolve(_, at, replies) =>
    }
  }

  // ---------- silences ----------

  /** Who is silenced: a label that the alert lacks counts as the empty string. */
  lemma SilencedIff(silences: map<nat, Silence>, a: Alert, now: int)
    ensures Silenced(silences, a, now) <==>
              exists id :: id in silences && silences[id].startsAt <= now < silences[id].endsAt
                           && forall k :: k in silences[id].matchers ==>
                                if k in a.labels then a.labels[k] == silences[id].matchers[k]
                                else silences[id].matchers[k] == ""
  {
    forall id | id in silences
      ensures Matches(silences[id], a, now) <==>
                (silences[id].startsAt <= now < silences[id].endsAt
                 && forall k :: k in silences[id].matchers ==>
                      if k in a.labels then a.labels[k] == silences[id].matchers[k]
                      else silences[id].matchers[k] == "")
    {
    }
  }
}
