/** The alert manager: alerts per fingerprint, silences, repeat notifications and cleanup. */
module AlertManagers {
  import opened Options

  datatype AlertState = Inactive | Pending | Firing | Resolved | Suppressed

  /** fingerprint and labels are fixed when the alert is created from its rule. */
  datatype Alert = Alert(fingerprint: string, labels: map<string, string>, state: AlertState, value: real,
                         updatedAt: int, startedAt: Option<int>, resolvedAt: Option<int>)

  datatype Rule = Rule(fingerprint: string, labels: map<string, string>, forDuration: int, repeatInterval: int)

  datatype Silence = Silence(id: nat, matchers: map<string, string>, startsAt: int, endsAt: int)

  predicate IsValidTransition(from: AlertState, to: AlertState) {
    if from.Suppressed? || to.Suppressed? then true
    else match from
      case Inactive => to.Pending?
      case Pending => to.Firing? || to.Inactive?
      case Firing => to.Resolved?
      case Resolved => to.Pending? || to.Inactive?
      case Suppressed => true
  }

  function TransitionTo(a: Alert, to: AlertState, now: int): Alert {
    if !IsValidTransition(a.state, to) then a
    else
      a.(state := to, updatedAt := now,
         startedAt := if to.Firing? && a.startedAt == None then Some(now) else a.startedAt,
         resolvedAt := if to.Resolved? then Some(now) else a.resolvedAt)
  }

  function CreateAlert(rule: Rule, value: real, now: int): Alert {
    Alert(rule.fingerprint, rule.labels, Inactive, value, now, None, None)
  }

  predicate IsActive(s: Silence, now: int) {
    s.startsAt <= now < s.endsAt
  }

  function LabelOf(labels: map<string, string>, key: string): string {
    if key in labels then labels[key] else ""
  }

  predicate Matches(s: Silence, a: Alert, now: int) {
    IsActive(s, now) && forall k :: k in s.matchers ==> LabelOf(a.labels, k) == s.matchers[k]
  }

  predicate Silenced(silences: map<nat, Silence>, a: Alert, now: int) {
    exists id :: id in silences && Matches(silences[id], a, now)
  }

  // ---------- the manager as a value ----------

  /** The clock as one call reads it: on entry, in transition_to, in the silence check, after dispatching. */
  datatype Readings = Readings(now: int, stamp: int, check: int, sent: int)

  predicate Ordered(at: Readings) {
    at.now <= at.stamp <= at.check <= at.sent
  }

  /** How one notifier answers a round. */
  datatype Reply = NotReady | Delivered | Rejected

  /** A round of notifications for one alert, as it was then. */
  datatype Dispatch = Dispatch(fingerprint: string, state: AlertState, time: int)

  /** `dispatches` is history: the rounds sent so far. */
  datatype Manager = Manager(resolveTimeout: int, maxSilences: nat, alerts: map<string, Alert>,
                             silences: map<nat, Silence>, lastNotify: map<string, int>,
                             created: nat, resolved: nat, suppressed: nat, sent: nat, failed: nat,
                             dispatches: seq<Dispatch>)

  function Initial(resolveTimeout: int, maxSilences: nat): Manager {
    Manager(resolveTimeout, maxSilences, map[], map[], map[], 0, 0, 0, 0, 0, [])
  }

  function CountOf(r: Reply, replies: seq<Reply>): nat {
    multiset(replies)[r]
  }

  function Notify(m: Manager, a: Alert, at: Readings, replies: seq<Reply>): Manager {
    m.(lastNotify := m.lastNotify[a.fingerprint := at.sent],
       sent := m.sent + CountOf(Delivered, replies),
       failed := m.failed + CountOf(Rejected, replies),
       dispatches := m.dispatches + [Dispatch(a.fingerprint, a.state, at.sent)])
  }

  function Put(m: Manager, fp: string, a: Alert): Manager {
    m.(alerts := m.alerts[fp := a])
  }

  /** The condition of the rule holds. */
  function EvaluateMet(m: Manager, rule: Rule, value: real, at: Readings, replies: seq<Reply>): Manager {
    var fp := rule.fingerprint;
    if fp !in m.alerts then
      Put(m, fp, TransitionTo(CreateAlert(rule, value, at.now), Pending, at.stamp)).(created := m.created + 1)
    else
      var a := m.alerts[fp].(value := value);
      match a.state
      case Pending =>
        if at.now - a.updatedAt < rule.forDuration then Put(m, fp, a)
        else
          var b := TransitionTo(a, Firing, at.stamp);
          if Silenced(m.silences, b, at.check) then Put(m, fp, b).(suppressed := m.suppressed + 1)
          else Notify(Put(m, fp, b), b, at, replies)
      case Firing =>
        if RepeatDue(m, fp, rule, at.now) && !Silenced(m.silences, a, at.check)
        then Notify(Put(m, fp, a), a, at, replies) else Put(m, fp, a)
      case Suppressed => Put(m, fp, a)
      case _ => Put(m, fp, TransitionTo(a, Pending, at.stamp))
  }

  predicate RepeatDue(m: Manager, fp: string, rule: Rule, now: int) {
    fp in m.lastNotify && now - m.lastNotify[fp] >= rule.repeatInterval
  }

  /** The condition of the rule does not hold. */
  function EvaluateUnmet(m: Manager, rule: Rule, at: Readings, replies: seq<Reply>): Manager {
    var fp := rule.fingerprint;
    if fp !in m.alerts then m
    else
      var a := m.alerts[fp];
      match a.state
      case Pending => Put(m, fp, TransitionTo(a, Inactive, at.stamp))
      case Firing =>
        var b := TransitionTo(a, Resolved, at.stamp);
        var m' := Put(m, fp, b).(resolved := m.resolved + 1);
        if Silenced(m.silences, b, at.check) then m' else Notify(m', b, at, replies)
      case _ => m
  }

  /** Resolving by hand notifies without asking whether the alert is silenced. */
  function ResolveByHand(m: Manager, fp: string, at: Readings, replies: seq<Reply>): Manager {
    if fp in m.alerts && IsValidTransition(m.alerts[fp].state, Resolved) then
      var b := TransitionTo(m.alerts[fp], Resolved, at.stamp);
      Notify(Put(m, fp, b).(resolved := m.resolved + 1), b, at, replies)
    else m
  }

  predicate Expired(a: Alert, timeout: int, now: int) {
    a.state.Resolved? && now - a.updatedAt > timeout
  }

  function CleanupAlerts(m: Manager, now: int): Manager {
    var expired := set fp | fp in m.alerts && Expired(m.alerts[fp], m.resolveTimeout, now);
    m.(alerts := m.alerts - expired, lastNotify := m.lastNotify - expired)
  }

  function CleanupSilences(m: Manager, now: int): Manager {
    m.(silences := map id | id in m.silences && IsActive(m.silences[id], now) :: m.silences[id])
  }

  // ---------- the manager as an object ----------

  class AlertManager {
    const resolveTimeout: int
    const maxSilences: nat
    var alerts: map<string, Alert>
    var silences: map<nat, Silence>
    var lastNotify: map<string, int>
    var alertsCreated: nat
    var alertsResolved: nat
    var alertsSuppressed: nat
    var notificationsSent: nat
    var notificationsFailed: nat
    ghost var dispatches: seq<Dispatch>

    constructor (resolveTimeout: int, maxSilences: nat)
      ensures Abs() == Initial(resolveTimeout, maxSilences)
    {
      this.resolveTimeout, this.maxSilences := resolveTimeout, maxSilences;
      alerts, silences, lastNotify := map[], map[], map[];
      alertsCreated, alertsResolved, alertsSuppressed := 0, 0, 0;
      notificationsSent, notificationsFailed, dispatches := 0, 0, [];
    }

    ghost function Abs(): Manager
      reads this
    {
      Manager(resolveTimeout, maxSilences, alerts, silences, lastNotify, alertsCreated, alertsResolved,
              alertsSuppressed, notificationsSent, notificationsFailed, dispatches)
    }

    method SendNotifications(a: Alert, at: Readings, replies: seq<Reply>)
      modifies this`lastNotify, this`notificationsSent, this`notificationsFailed, this`dispatches
      ensures Abs() == Notify(old(Abs()), a, at, replies)
    {
      for i := 0 to |replies|
        invariant lastNotify == old(lastNotify) && dispatches == old(dispatches)
        invariant notificationsSent == old(notificationsSent) + CountOf(Delivered, replies[..i])
        invariant notificationsFailed == old(notificationsFailed) + CountOf(Rejected, replies[..i])
      {
        assert replies[..i + 1] == replies[..i] + [replies[i]];
        if replies[i].Delivered? {
          notificationsSent := notificationsSent + 1;
        } else if replies[i].Rejected? {
          notificationsFailed := notificationsFailed + 1;
        }
      }
      assert replies[..|replies|] == replies;
      lastNotify := lastNotify[a.fingerprint := at.sent];
      dispatches := dispatches + [Dispatch(a.fingerprint, a.state, at.sent)];
    }

    method UpdateAlertState(rule: Rule, conditionMet: bool, value: real, at: Readings, replies: seq<Reply>)
      modifies this
      ensures Abs() == if conditionMet then EvaluateMet(old(Abs()), rule, value, at, replies)
                       else EvaluateUnmet(old(Abs()), rule, at, replies)
    {
      var fp := rule.fingerprint;
      if conditionMet {
        if fp !in alerts {
          var created := TransitionTo(CreateAlert(rule, value, at.now), Pending, at.stamp);
          alerts := alerts[fp := created];
          alertsCreated := alertsCreated + 1;
        } else {
          UpdateMet(rule, value, at, replies);
        }
      } else if fp in alerts {
        UpdateUnmet(rule, at, replies);
      }
    }

    method UpdateMet(rule: Rule, value: real, at: Readings, replies: seq<Reply>)
      requires rule.fingerprint in alerts
      modifies this
      ensures Abs() == EvaluateMet(old(Abs()), rule, value, at, replies)
    {
      var fp := rule.fingerprint;
      var existing := alerts[fp].(value := value);
      alerts := alerts[fp := existing];
      if existing.state.Pending? {
        if at.now - existing.updatedAt >= rule.forDuration {
          existing := TransitionTo(existing, Firing, at.stamp);
          alerts := alerts[fp := existing];
          if !Silenced(silences, existing, at.check) {
            SendNotifications(existing, at, replies);
          } else {
            alertsSuppressed := alertsSuppressed + 1;
          }
        }
      } else if existing.state.Firing? {
        if fp in lastNotify {
          if at.now - lastNotify[fp] >= rule.repeatInterval {
            if !Silenced(silences, existing, at.check) {
              SendNotifications(existing, at, replies);
            }
          }
        }
      } else if existing.state.Resolved? || existing.state.Inactive? {
        alerts := alerts[fp := TransitionTo(existing, Pending, at.stamp)];
      }
    }

    method UpdateUnmet(rule: Rule, at: Readings, replies: seq<Reply>)
      requires rule.fingerprint in alerts
      modifies this
      ensures Abs() == EvaluateUnmet(old(Abs()), rule, at, replies)
    {
      var fp := rule.fingerprint;
      var existing := alerts[fp];
      if existing.state.Pending? {
        alerts := alerts[fp := TransitionTo(existing, Inactive, at.stamp)];
      } else if existing.state.Firing? {
        existing := TransitionTo(existing, Resolved, at.stamp);
        alerts := alerts[fp := existing];
        alertsResolved := alertsResolved + 1;
        if !Silenced(silences, existing, at.check) {
          SendNotifications(existing, at, replies);
        }
      }
    }

    method ResolveAlert(fp: string, at: Readings, replies: seq<Reply>) returns (found: bool)
      modifies this
      ensures found == (fp in old(alerts))
      ensures Abs() == ResolveByHand(old(Abs()), fp, at, replies)
    {
      if fp !in alerts {
        return false;
      }
      var existing := alerts[fp];
      if IsValidTransition(existing.state, Resolved) {
        existing := TransitionTo(existing, Resolved, at.stamp);
        alerts := alerts[fp := existing];
        alertsResolved := alertsResolved + 1;
        SendNotifications(existing, at, replies);
      }
      return true;
    }

    method CreateSilence(s: Silence) returns (accepted: bool)
      modifies this`silences
      ensures accepted == (|old(silences)| < maxSilences)
      ensures silences == if accepted then old(silences)[s.id := s] else old(silences)
    {
      if |silences| >= maxSilences {
        return false;
      }
      silences := silences[s.id := s];
      return true;
    }

    method DeleteSilence(id: nat) returns (found: bool)
      modifies this`silences
      ensures found == (id in old(silences)) && silences == old(silences) - {id}
    {
      if id !in silences {
        return false;
      }
      silences := silences - {id};
      return true;
    }

    method CleanupExpiredSilences(now: int)
      modifies this`silences
      ensures Abs() == CleanupSilences(old(Abs()), now)
    {
      var todo := silences.Keys;
      while todo != {}
        invariant todo <= silences.Keys <= old(silences).Keys
        invariant forall id :: id in old(silences) ==>
                    (id in silences <==> id in todo || IsActive(old(silences)[id], now))
        invariant forall id :: id in silences ==> silences[id] == old(silences)[id]
      {
        var id :| id in todo;
        todo := todo - {id};
        if !IsActive(silences[id], now) {
          silences := silences - {id};
        }
      }
      assert silences == CleanupSilences(old(Abs()), now).silences;
    }

    method CleanupResolvedAlerts(now: int)
      modifies this`alerts, this`lastNotify
      ensures Abs() == CleanupAlerts(old(Abs()), now)
    {
      var todo := alerts.Keys;
      ghost var expired := set fp | fp in alerts && Expired(alerts[fp], resolveTimeout, now);
      while todo != {}
        invariant todo <= alerts.Keys
        invariant alerts == old(alerts) - (expired - todo)
        invariant lastNotify == old(lastNotify) - (expired - todo)
      {
        var fp :| fp in todo;
        ghost var before := expired - todo;
        todo := todo - {fp};
        if alerts[fp].state.Resolved? && now - alerts[fp].updatedAt > resolveTimeout {
          assert expired - todo == before + {fp};
          lastNotify := lastNotify - {fp};
          alerts := alerts - {fp};
        } else {
          assert expired - todo == before;
        }
      }
      assert expired - todo == expired;
    }
  }
}
