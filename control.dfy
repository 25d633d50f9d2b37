/** The rule and alert engine of control.py (class Controller): sensor
    payloads reset the reporting node's liveness countdown and run the
    rules of their node type and the "signal" rules; timer ticks run the
    timer rules and count every node's liveness down; alerts are kept in a
    table so that a condition that stays true raises one alert.

    Times are in centiseconds. `now` stands for GetSecondsSinceEpoch() and
    `clock` for datetime.now().time(); both are parameters. Publications
    are recorded, in order, in a ghost outbox. */
module Control {
  import opened Wire
  import opened Conditions
  import Report

  /** One configured control rule; a key the rule lacks is None. */
  datatype Rule = Rule(
    enabled: int,
    node: Option<string>,          // the node name the rule is scoped to
    value: string,                 // the payload key holding the value
    alert: Option<Condition>,
    time: Option<Condition>,
    on: Option<Condition>,
    off: Option<Condition>)

  /** The rule an alert is raised for: a control rule, or the rule
      _BuildNodeTimeoutRule makes from the nodeTimeout configuration. */
  datatype AlertRule = RuleAlert(rule: Rule) | NodeTimeoutAlert

  /** GetRuleHash(rule, nodeID), with the digest abstracted to the pair it
      is computed from. */
  datatype AlertKey = AlertKey(rule: AlertRule, node: string)

  /** An activeAlerts entry. */
  datatype Stamp = Stamp(created: int, modified: int)

  /** What the controller publishes or hands on. */
  datatype Event =
    | AlertRaised(key: AlertKey, value: real)
    | AlertCleared(key: AlertKey, value: real)
    | Tick(ts: int)               // "ts=<now>" on the tick topic
    | Dispatched(cmd: string)     // a command handed to Command.Shell

  /** The active-alert table and everything published so far. */
  datatype Alerts = Alerts(active: map<AlertKey, Stamp>, published: seq<Event>)

  function NodeKey(nodeID: string): AlertKey {
    AlertKey(NodeTimeoutAlert, nodeID)
  }

  /** The KeyError ComposeAlert raises: the node id must have a name, and a
      rule's alert block must carry a title, an op and a setpoint (the node
      timeout rule always does). */
  function ComposeError(nodeMap: Table, key: AlertKey): Option<Error> {
    if Lookup(nodeMap, key.node).None? then Some(MissingKey(key.node))
    else match key.rule
      case NodeTimeoutAlert => None
      case RuleAlert(rule) =>
        if rule.alert.None? then Some(MissingKey("alert"))
        else if rule.alert.value.title.None? then Some(MissingKey("title"))
        else if rule.alert.value.op.None? then Some(MissingKey("op"))
        else if rule.alert.value.setpoint.None? then Some(MissingKey("setpoint"))
        else None
  }

  /** SendAlert: an absent key is inserted with both stamps at `now` and
      then the alert is composed and published; a present key only has its
      `modified` stamp moved. */
  function Raise(nodeMap: Table, a: Alerts, key: AlertKey, value: real, now: int): (Alerts, Option<Error>) {
    if key !in a.active then
      var active := a.active[key := Stamp(now, now)];
      match ComposeError(nodeMap, key)
      case Some(e) => (Alerts(active, a.published), Some(e))
      case None => (Alerts(active, a.published + [AlertRaised(key, value)]), None)
    else (Alerts(a.active[key := a.active[key].(modified := now)], a.published), None)
  }

  /** ClearAlert: a present key has its clear composed and published, and
      is then removed; an absent key changes nothing. */
  function Clear(nodeMap: Table, a: Alerts, key: AlertKey, value: real): (Alerts, Option<Error>) {
    if key in a.active then
      match ComposeError(nodeMap, key)
      case Some(e) => (a, Some(e))
      case None => (Alerts(a.active - {key}, a.published + [AlertCleared(key, value)]), None)
    else (a, None)
  }

  /** Raising an alert leaves it active and keeps every other entry; it
      publishes exactly when the alert was not active and can be composed. */
  lemma RaiseMeaning(nodeMap: Table, a: Alerts, key: AlertKey, value: real, now: int)
    ensures var (b, err) := Raise(nodeMap, a, key, value, now);
      && key in b.active && b.active.Keys == a.active.Keys + {key}
      && (forall k :: k in a.active && k != key ==> b.active[k] == a.active[k])
      && (key in a.active ==> b.active[key].created == a.active[key].created && b.published == a.published && err.None?)
      && (key !in a.active ==> err == ComposeError(nodeMap, key))
      && b.published == a.published + (if key !in a.active && err.None? then [AlertRaised(key, value)] else [])
  {
  }

  /** Clearing an alert publishes and removes it exactly when it is active
      and can be composed; otherwise the table is unchanged. */
  lemma ClearMeaning(nodeMap: Table, a: Alerts, key: AlertKey, value: real)
    ensures var (b, err) := Clear(nodeMap, a, key, value);
      && (key !in a.active ==> b == a && err.None?)
      && (key in a.active && ComposeError(nodeMap, key).None? ==>
            b.active == a.active - {key} && b.published == a.published + [AlertCleared(key, value)] && err.None?)
      && (key in a.active && ComposeError(nodeMap, key).Some? ==> b == a && err.Some?)
  {
  }

  /** A condition that stays true raises its alert once: the second raise
      publishes nothing. */
  lemma RepeatedRaisePublishesOnce(nodeMap: Table, a: Alerts, key: AlertKey, v1: real, v2: real, t1: int, t2: int)
    requires key !in a.active && ComposeError(nodeMap, key).None?
    ensures var b := Raise(nodeMap, a, key, v1, t1).0;
      var c := Raise(nodeMap, b, key, v2, t2).0;
      && c.published == a.published + [AlertRaised(key, v1)]
      && c.active[key] == Stamp(t1, t2)
  {
  }

  /** Raise, clear and raise again publishes all three. */
  lemma RaiseClearRaise(nodeMap: Table, a: Alerts, key: AlertKey, v1: real, v2: real, v3: real, t1: int, t3: int)
    requires key !in a.active && ComposeError(nodeMap, key).None?
    ensures var b := Raise(nodeMap, a, key, v1, t1).0;
      var c := Clear(nodeMap, b, key, v2).0;
      var d := Raise(nodeMap, c, key, v3, t3).0;
      && c.active == a.active
      && d.published == a.published + [AlertRaised(key, v1), AlertCleared(key, v2), AlertRaised(key, v3)]
  {
  }

  // ---------------------------------------------------------------------
  // Node liveness

  /** One _TrackNodeTimeout step on an entry: only a positive countdown is
      lowered. */
  function Countdown(v: int, tickFreq: int): int {
    if v > 0 then v - tickFreq else v
  }

  /** n passes of _TrackNodeTimeout as seen by one node that never reports:
      its countdown goes down and, from the pass where it reaches zero, its
      node timeout alert is raised on every pass. */
  function SilentTicks(nodeMap: Table, tickFreq: int, timeout: real, a: Alerts, nodeID: string, v: int, n: nat, now: int): (Alerts, int)
    decreases n
  {
    if n == 0 then (a, v)
    else
      var w := Countdown(v, tickFreq);
      var b := if w <= 0 then Raise(nodeMap, a, NodeKey(nodeID), timeout, now).0 else a;
      SilentTicks(nodeMap, tickFreq, timeout, b, nodeID, w, n - 1, now)
  }

  /** A node that stops reporting, with countdown v, is reported exactly
      once by n passes when n ticks cover v, and not at all otherwise. */
  lemma {:induction false} SilentNodeAlertsOnce(nodeMap: Table, tickFreq: int, timeout: real, a: Alerts,
                                                nodeID: string, v: int, n: nat, now: int)
    requires tickFreq > 0
    requires NodeKey(nodeID) !in a.active && Lookup(nodeMap, nodeID).Some?
    ensures SilentTicks(nodeMap, tickFreq, timeout, a, nodeID, v, n, now).0.published
            == a.published + (if n > 0 && n * tickFreq >= v then [AlertRaised(NodeKey(nodeID), timeout)] else [])
    decreases n
  {
    if n > 0 {
      var w := Countdown(v, tickFreq);
      if w <= 0 {
        var b := Raise(nodeMap, a, NodeKey(nodeID), timeout, now).0;
        assert b.published == a.published + [AlertRaised(NodeKey(nodeID), timeout)];
        StaysRaised(nodeMap, tickFreq, timeout, b, nodeID, w, n - 1, now);
        assert v <= tickFreq;
        assert n * tickFreq >= tickFreq;
      } else {
        SilentNodeAlertsOnce(nodeMap, tickFreq, timeout, a, nodeID, w, n - 1, now);
        assert n * tickFreq >= v <==> (n - 1) * tickFreq >= w;
        if n - 1 == 0 {
          assert !(n * tickFreq >= v);
        }
      }
    }
  }

  /** Once a node's timeout alert is active, further passes publish nothing. */
  lemma {:induction false} StaysRaised(nodeMap: Table, tickFreq: int, timeout: real, a: Alerts,
                                       nodeID: string, v: int, n: nat, now: int)
    requires NodeKey(nodeID) in a.active
    ensures SilentTicks(nodeMap, tickFreq, timeout, a, nodeID, v, n, now).0.published == a.published
    decreases n
  {
    if n > 0 {
      var w := Countdown(v, tickFreq);
      var b := if w <= 0 then Raise(nodeMap, a, NodeKey(nodeID), timeout, now).0 else a;
      StaysRaised(nodeMap, tickFreq, timeout, b, nodeID, w, n - 1, now);
    }
  }

  // ---------------------------------------------------------------------
  // The tick clock

  const TimeTrackWait: int := 1      // timeTrackWaitSec = 0.01

  /** One TrackTime call: the countdown goes down by the wait and, on
      reaching zero, is reset to the tick period and a tick is published. */
  function TrackTimeStep(timeTrack: int, tickFreq: int): (r: (int, bool)) {
    var t := timeTrack - TimeTrackWait;
    if t <= 0 then (tickFreq, true) else (t, false)
  }

  /** n TrackTime calls: the final countdown and the number of ticks. */
  function TrackTimeRun(timeTrack: int, tickFreq: int, n: nat): (int, nat)
    decreases n
  {
    if n == 0 then (timeTrack, 0)
    else
      var (t, ticked) := TrackTimeStep(timeTrack, tickFreq);
      var (u, ticks) := TrackTimeRun(t, tickFreq, n - 1);
      (u, ticks + if ticked then 1 else 0)
  }

  /** From countdown t, fewer than t calls publish no tick. */
  lemma {:induction false} NoTickBeforeCountdown(t: int, tickFreq: int, n: nat)
    requires n < t
    ensures TrackTimeRun(t, tickFreq, n) == (t - n, 0)
    decreases n
  {
    if n > 0 {
      NoTickBeforeCountdown(t - 1, tickFreq, n - 1);
    }
  }

  /** From countdown t, the t-th call publishes the tick and restarts the
      period. */
  lemma TickAtCountdown(t: int, tickFreq: int)
    requires t >= 1
    ensures TrackTimeRun(t, tickFreq, t as nat) == (tickFreq, 1)
  {
    NoTickBeforeCountdown(t, tickFreq, t as nat - 1);
    RunSplit(t, tickFreq, t as nat - 1, 1);
  }

  lemma {:induction false} RunSplit(t: int, tickFreq: int, m: nat, n: nat)
    ensures TrackTimeRun(t, tickFreq, m + n)
            == var (u, k1) := TrackTimeRun(t, tickFreq, m);
               var (w, k2) := TrackTimeRun(u, tickFreq, n);
               (w, k1 + k2)
    decreases m
  {
    if m > 0 {
      var (t1, _) := TrackTimeStep(t, tickFreq);
      RunSplit(t1, tickFreq, m - 1, n);
    }
  }

  /** Starting from a full period, k periods of calls publish exactly k
      ticks and end on a full period again. */
  lemma {:induction false} OneTickPerPeriod(tickFreq: int, k: nat)
    requires tickFreq >= 1
    ensures TrackTimeRun(tickFreq, tickFreq, k * tickFreq) == (tickFreq, k)
  {
    if k > 0 {
      OneTickPerPeriod(tickFreq, k - 1);
      assert k * tickFreq == (k - 1) * tickFreq + tickFreq;
      RunSplit(tickFreq, tickFreq, (k - 1) * tickFreq, tickFreq);
      TickAtCountdown(tickFreq, tickFreq);
    }
  }

  // ---------------------------------------------------------------------
  // The per-rule decision of _EvalRule

  /** What _EvalRule does to the alert table. */
  datatype AlertAction = NoAlert | RaiseIt(key: AlertKey, value: real) | ClearIt(key: AlertKey, value: real)

  /** What _EvalRule does after the alert: nothing, one command handed to
      Command.Shell, or an exception. */
  datatype Tail = Done | Dispatch(cmd: string) | TailFail(error: Error)

  datatype Decision = Skip | Abort(error: Error) | Act(alert: AlertAction, tail: Tail)

  /** _SendCommand(rule, onOff): the `cmd` of the rule's on or off block. */
  function CommandOf(c: Option<Condition>, onOff: string): Tail {
    if c.None? then TailFail(MissingKey(onOff))
    else if c.value.cmd.None? then TailFail(MissingKey("cmd"))
    else Dispatch(c.value.cmd.value)
  }

  /** The part of _EvalRule after the alert: a time precondition that is
      exactly False sends "off"; otherwise a true "on" sends "on", and else
      a true "off" sends "off". */
  function TailOf(rule: Rule, value: real, clock: TimeOfDay): Tail {
    var pre := if rule.time.Some? then Some(EvalCondition(value, rule.time.value, clock)) else None;
    if pre.Some? && pre.value.Fail? then TailFail(pre.value.error)
    else if pre == Some(Ok(ReturnedFalse)) then CommandOf(rule.off, "off")
    else
      var on := if rule.on.Some? then Some(EvalCondition(value, rule.on.value, clock)) else None;
      if on.Some? && on.value.Fail? then TailFail(on.value.error)
      else if on == Some(Ok(ReturnedTrue)) then CommandOf(rule.on, "on")
      else
        var off := if rule.off.Some? then Some(EvalCondition(value, rule.off.value, clock)) else None;
        if off.Some? && off.value.Fail? then TailFail(off.value.error)
        else if off == Some(Ok(ReturnedTrue)) then CommandOf(rule.off, "off")
        else Done
  }

  /** _EvalRule, up to its side effects. An unknown node id raises whether
      or not the rule names a node; the value is read as a float before
      anything else happens; the alert is looked at only when the payload
      names a node. */
  function Decide(nodeMap: Table, rule: Rule, data: Query, clock: TimeOfDay): Decision {
    if rule.enabled != 1 then Skip
    else
      var nodeID := if "node" in data then Some(First(data, "node")) else None;
      if nodeID.Some? && Lookup(nodeMap, nodeID.value).None? then Abort(MissingKey(nodeID.value))
      else if nodeID.Some? && rule.node.Some? && Lookup(nodeMap, nodeID.value).value != rule.node.value then Skip
      else if rule.value !in data then Abort(MissingKey(rule.value))
      else match ParseReal(First(data, rule.value))
        case None => Abort(BadNumber(First(data, rule.value)))
        case Some(value) =>
          if rule.alert.Some? && nodeID.Some? then
            match EvalCondition(value, rule.alert.value, clock)
            case Fail(e) => Abort(e)
            case Ok(v) =>
              var key := AlertKey(RuleAlert(rule), nodeID.value);
              Act(if v == ReturnedTrue then RaiseIt(key, value) else ClearIt(key, value), TailOf(rule, value, clock))
          else Act(NoAlert, TailOf(rule, value, clock))
  }

  /** The side effects of a decision, stopping at the first exception. */
  function ApplyDecision(nodeMap: Table, a: Alerts, d: Decision, now: int): (Alerts, Option<Error>) {
    match d
    case Skip => (a, None)
    case Abort(e) => (a, Some(e))
    case Act(alert, tail) =>
      var (b, err) := match alert
        case NoAlert => (a, None)
        case RaiseIt(key, value) => Raise(nodeMap, a, key, value, now)
        case ClearIt(key, value) => Clear(nodeMap, a, key, value);
      if err.Some? then (b, err)
      else match tail
        case Done => (b, None)
        case Dispatch(cmd) => (b.(published := b.published + [Dispatched(cmd)]), None)
        case TailFail(e) => (b, Some(e))
  }

  /** The order of _EvalRule: a disabled rule does nothing; a rule scoped to
      another node returns before the alert; the alert needs a node in the
      payload; a time precondition that is exactly False sends "off" whatever
      "on" says; "on" is looked at before "off". */
  lemma DecideOrder(nodeMap: Table, rule: Rule, data: Query, clock: TimeOfDay)
    ensures rule.enabled != 1 ==> Decide(nodeMap, rule, data, clock) == Skip
    ensures (rule.enabled == 1 && "node" in data && rule.node.Some?
             && Lookup(nodeMap, First(data, "node")) == Some(rule.node.value)) ==> Decide(nodeMap, rule, data, clock) != Skip
    ensures (rule.enabled == 1 && "node" in data && rule.node.Some? && Lookup(nodeMap, First(data, "node")).Some?
             && Lookup(nodeMap, First(data, "node")) != Some(rule.node.value)) ==> Decide(nodeMap, rule, data, clock) == Skip
    ensures "node" !in data && Decide(nodeMap, rule, data, clock).Act? ==> Decide(nodeMap, rule, data, clock).alert == NoAlert
    ensures Decide(nodeMap, rule, data, clock).Act? && rule.time.Some? ==>
              var value := ParseReal(First(data, rule.value)).value;
              EvalCondition(value, rule.time.value, clock) == Ok(ReturnedFalse) ==>
                Decide(nodeMap, rule, data, clock).tail == CommandOf(rule.off, "off")
    ensures Decide(nodeMap, rule, data, clock).Act? && rule.on.Some? && rule.on.value.cmd.Some? ==>
              var value := ParseReal(First(data, rule.value)).value;
              (rule.time.None? || (EvalCondition(value, rule.time.value, clock).Ok?
                                   && EvalCondition(value, rule.time.value, clock).value != ReturnedFalse))
              && EvalCondition(value, rule.on.value, clock) == Ok(ReturnedTrue) ==>
                Decide(nodeMap, rule, data, clock).tail == Dispatch(rule.on.value.cmd.value)
  {
    if Decide(nodeMap, rule, data, clock).Act? {
      DecideActs(nodeMap, rule, data, clock);
      TailOrder(rule, ParseReal(First(data, rule.value)).value, clock);
    }
  }

  /** A rule that acts read its value and ends with TailOf. */
  lemma DecideActs(nodeMap: Table, rule: Rule, data: Query, clock: TimeOfDay)
    ensures var d := Decide(nodeMap, rule, data, clock);
      d.Act? ==> rule.value in data && ParseReal(First(data, rule.value)).Some?
                 && d.tail == TailOf(rule, ParseReal(First(data, rule.value)).value, clock)
  {
  }

  /** The time precondition comes first, then "on", then "off". */
  lemma TailOrder(rule: Rule, value: real, clock: TimeOfDay)
    ensures rule.time.Some? && EvalCondition(value, rule.time.value, clock) == Ok(ReturnedFalse) ==>
              TailOf(rule, value, clock) == CommandOf(rule.off, "off")
    ensures rule.on.Some? && rule.on.value.cmd.Some?
            && (rule.time.None? || (EvalCondition(value, rule.time.value, clock).Ok?
                                    && EvalCondition(value, rule.time.value, clock).value != ReturnedFalse))
            && EvalCondition(value, rule.on.value, clock) == Ok(ReturnedTrue) ==>
              TailOf(rule, value, clock) == Dispatch(rule.on.value.cmd.value)
  {
  }

  /** A rule publishes at most one alert event and hands on at most one
      command, after the alert. */
  lemma AtMostOneCommand(nodeMap: Table, a: Alerts, d: Decision, now: int)
    ensures var b := ApplyDecision(nodeMap, a, d, now).0;
      && a.published <= b.published && |b.published| <= |a.published| + 2
      && (forall i :: |a.published| <= i < |b.published| && b.published[i].Dispatched? ==> i == |b.published| - 1)
  {
  }

  /** The rules of a list in order, stopping at the first that raises. */
  function ApplyRules(nodeMap: Table, a: Alerts, rules: seq<Rule>, data: Query, clock: TimeOfDay, now: int): (Alerts, Option<Error>)
    decreases |rules|
  {
    if rules == [] then (a, None)
    else
      var (b, err) := ApplyDecision(nodeMap, a, Decide(nodeMap, rules[0], data, clock), now);
      if err.Some? then (b, err) else ApplyRules(nodeMap, b, rules[1..], data, clock, now)
  }

  /** A list of rules none of which is enabled changes nothing. */
  lemma {:induction false} DisabledRulesDoNothing(nodeMap: Table, a: Alerts, rules: seq<Rule>, data: Query, clock: TimeOfDay, now: int)
    requires forall i :: 0 <= i < |rules| ==> rules[i].enabled != 1
    ensures ApplyRules(nodeMap, a, rules, data, clock, now) == (a, None)
  {
    if rules != [] {
      DisabledRulesDoNothing(nodeMap, a, rules[1..], data, clock, now);
    }
  }

  /** Control rules never touch the node timeout alerts: every alert key a
      rule raises or clears is its own. */
  lemma {:induction false} RulesKeepNodeTimeoutAlerts(nodeMap: Table, a: Alerts, rules: seq<Rule>, data: Query,
                                                      clock: TimeOfDay, now: int, nodeID: string)
    ensures var b := ApplyRules(nodeMap, a, rules, data, clock, now).0;
      (NodeKey(nodeID) in b.active <==> NodeKey(nodeID) in a.active)
    decreases |rules|
  {
    if rules != [] {
      var (b, err) := ApplyDecision(nodeMap, a, Decide(nodeMap, rules[0], data, clock), now);
      RuleKeepsNodeTimeoutAlert(nodeMap, a, rules[0], data, clock, now, nodeID);
      if err.None? {
        RulesKeepNodeTimeoutAlerts(nodeMap, b, rules[1..], data, clock, now, nodeID);
      }
    }
  }

  lemma RuleKeepsNodeTimeoutAlert(nodeMap: Table, a: Alerts, rule: Rule, data: Query, clock: TimeOfDay, now: int, nodeID: string)
    ensures var b := ApplyDecision(nodeMap, a, Decide(nodeMap, rule, data, clock), now).0;
      (NodeKey(nodeID) in b.active <==> NodeKey(nodeID) in a.active)
  {
    DecisionKeysAreTheRules(nodeMap, rule, data, clock);
    DecisionKeepsOtherAlerts(nodeMap, a, Decide(nodeMap, rule, data, clock), now, NodeKey(nodeID));
  }

  /** The only alert a rule raises or clears is keyed by the rule itself. */
  lemma DecisionKeysAreTheRules(nodeMap: Table, rule: Rule, data: Query, clock: TimeOfDay)
    ensures var d := Decide(nodeMap, rule, data, clock);
      d.Act? && !d.alert.NoAlert? ==> d.alert.key.rule == RuleAlert(rule)
  {
  }

  /** A decision leaves every alert but the one it raises or clears as it
      found it. */
  lemma DecisionKeepsOtherAlerts(nodeMap: Table, a: Alerts, d: Decision, now: int, k: AlertKey)
    requires d.Act? && !d.alert.NoAlert? ==> d.alert.key != k
    ensures k in ApplyDecision(nodeMap, a, d, now).0.active <==> k in a.active
  {
    if d.Act? && d.alert.RaiseIt? {
      RaiseMeaning(nodeMap, a, d.alert.key, d.alert.value, now);
    } else if d.Act? && d.alert.ClearIt? {
      ClearMeaning(nodeMap, a, d.alert.key, d.alert.value);
    }
  }

  /** The liveness map _InitNodeTimeoutTracker builds. */
  function InitialTracker(nodeMap: Table, freq: int): (r: map<string, int>)
    ensures forall id :: id in r <==> Lookup(nodeMap, id).Some?
    ensures forall id :: id in r ==> r[id] == freq
  {
    if nodeMap == [] then map[] else InitialTracker(nodeMap[1..], freq)[nodeMap[0].0 := freq]
  }

  /** What a pass of _TrackNodeTimeout has done once the nodes in `done`
      went through it, starting from countdowns t0 and alerts a0: their
      countdowns are lowered, every one at or below zero has its alert,
      `sent` is the alerts newly raised for them, each once, and no other
      alert was added. */
  ghost predicate Swept(done: set<string>, t0: map<string, int>, t: map<string, int>,
                        a0: map<AlertKey, Stamp>, a: map<AlertKey, Stamp>, sent: seq<Event>, timeout: real, tickFreq: int)
  {
    && done <= t0.Keys && t.Keys == t0.Keys
    && (forall id :: id in done ==> t[id] == Countdown(t0[id], tickFreq))
    && (forall id :: id in done && t[id] <= 0 ==> NodeKey(id) in a)
    && (forall id :: id in done && t[id] <= 0 && NodeKey(id) !in a0 ==> AlertRaised(NodeKey(id), timeout) in sent)
    && a0.Keys <= a.Keys
    && (forall k :: k in a ==> k in a0 || (k.rule == NodeTimeoutAlert && k.node in done && t[k.node] <= 0))
    && (forall e :: e in sent ==>
          && e.AlertRaised? && e.key == NodeKey(e.key.node) && e.value == timeout
          && e.key.node in done && t[e.key.node] <= 0 && e.key !in a0)
    && (forall i, j :: 0 <= i < j < |sent| ==> sent[i] != sent[j])
  }

  /** One more node through the pass keeps Swept. */
  lemma SweepStep(done: set<string>, nodeID: string, t0: map<string, int>, t: map<string, int>, t1: map<string, int>,
                  a0: map<AlertKey, Stamp>, a: map<AlertKey, Stamp>, a1: map<AlertKey, Stamp>,
                  sent: seq<Event>, ev: seq<Event>, timeout: real, tickFreq: int)
    requires Swept(done, t0, t, a0, a, sent, timeout, tickFreq)
    requires nodeID in t0 && nodeID !in done && t[nodeID] == t0[nodeID]
    requires t1 == t[nodeID := Countdown(t[nodeID], tickFreq)]
    requires a.Keys <= a1.Keys
    requires forall k :: k in a1 ==> k in a || (k == NodeKey(nodeID) && t1[nodeID] <= 0)
    requires t1[nodeID] <= 0 ==> NodeKey(nodeID) in a1
    requires ev == if t1[nodeID] <= 0 && NodeKey(nodeID) !in a then [AlertRaised(NodeKey(nodeID), timeout)] else []
    ensures Swept(done + {nodeID}, t0, t1, a0, a1, sent + ev, timeout, tickFreq)
  {
    var sent1 := sent + ev;
    forall i, j | 0 <= i < j < |sent1|
      ensures sent1[i] != sent1[j]
    {
      if j >= |sent| {
        assert sent[i] in sent;
      }
    }
  }

  class Controller {
    const acceptType: set<string>                 // sensorDataParser.accept
    const nodeMap: Table                          // node id -> node name
    const controlRules: map<string, seq<Rule>>    // the rule lists of the control block, by node type and "signal"
    const timerRules: Option<seq<Rule>>           // control.timers; None for null
    const tickFreq: int                           // control.tick.freqSec
    const nodeTimeout: int                        // control.nodeTimeout.freqSec
    const report: Report.Report
    var activeAlerts: map<AlertKey, Stamp>
    var nodeTimeoutTracker: map<string, int>
    var timeTrack: int
    ghost var outbox: seq<Event>

    constructor (acceptType: set<string>, nodeMap: Table, controlRules: map<string, seq<Rule>>,
                 timerRules: Option<seq<Rule>>, tickFreq: int, nodeTimeout: int, report: Report.Report)
      ensures this.acceptType == acceptType && this.nodeMap == nodeMap && this.controlRules == controlRules
      ensures this.timerRules == timerRules && this.tickFreq == tickFreq && this.nodeTimeout == nodeTimeout
      ensures this.report == report
      ensures activeAlerts == map[] && nodeTimeoutTracker == InitialTracker(nodeMap, nodeTimeout)
      ensures timeTrack == tickFreq && outbox == []
    {
      var nt := InitNodeTimeoutTracker(nodeMap, nodeTimeout);
      this.acceptType := acceptType;
      this.nodeMap := nodeMap;
      this.controlRules := controlRules;
      this.timerRules := timerRules;
      this.tickFreq := tickFreq;
      this.nodeTimeout := nodeTimeout;
      this.report := report;
      activeAlerts := map[];
      timeTrack := tickFreq;
      outbox := [];
      nodeTimeoutTracker := nt;
    }

    /** _InitNodeTimeoutTracker: every configured node starts with the full
      countdown. */
    static method InitNodeTimeoutTracker(nodeMap: Table, freq: int) returns (nt: map<string, int>)
      ensures nt == InitialTracker(nodeMap, freq)
    {
      nt := map[];
      var i := |nodeMap|;
      while i > 0
        invariant 0 <= i <= |nodeMap|
        invariant nt == InitialTracker(nodeMap[i..], freq)
      {
        i := i - 1;
        assert nodeMap[i..][1..] == nodeMap[i + 1..];
        nt := nt[nodeMap[i].0 := freq];
      }
    }

    ghost function AlertState(): Alerts
      reads this
    {
      Alerts(activeAlerts, outbox)
    }

    /** Whether CallbackSensor drops a payload before doing anything: it
      did not decode, or its type is missing or not accepted. */
    predicate Dropped(payload: Option<Query>) {
      payload.None? || "t" !in payload.value || First(payload.value, "t") !in acceptType
    }

    /** CallbackSensor on an accepted payload: the state of the alert table,
      the liveness map and the report afterwards, and the exception that
      ended the callback, if any. */
    function SensorOutcome(a: Alerts, tracker: map<string, int>, nodes: Report.ReportNodes,
                           d: Query, clock: TimeOfDay, now: int): (Alerts, map<string, int>, Report.ReportNodes, Option<Error>)
      requires "t" in d
    {
      var nodeType := First(d, "t");
      var (a1, tracker1, err1) :=
        if "node" in d then
          var (b, e) := Clear(nodeMap, a, NodeKey(First(d, "node")), nodeTimeout as real);
          (b, tracker[First(d, "node") := nodeTimeout], e)
        else (a, tracker, None);
      if err1.Some? then (a1, tracker1, nodes, err1)
      else
        var (a2, err2) := if nodeType in controlRules then ApplyRules(nodeMap, a1, controlRules[nodeType], d, clock, now) else (a1, None);
        if err2.Some? then (a2, tracker1, nodes, err2)
        else if "signal" !in controlRules then (a2, tracker1, nodes, Some(MissingKey("signal")))
        else
          var (a3, err3) := ApplyRules(nodeMap, a2, controlRules["signal"], d, clock, now);
          if err3.Some? then (a3, tracker1, nodes, err3)
          else
            var (nodes1, err4) := Report.UpdateNodes(report.nodeMap, report.tables, nodes, d);
            (a3, tracker1, nodes1, err4)
    }

    /** A node that reports gets its full countdown back and, unless its
      alert could not be composed, has no node timeout alert afterwards:
      the rules that run next never raise one. */
    lemma ReportingNodeIsAlive(a: Alerts, tracker: map<string, int>, nodes: Report.ReportNodes,
                               d: Query, clock: TimeOfDay, now: int)
      requires "t" in d && "node" in d
      requires Clear(nodeMap, a, NodeKey(First(d, "node")), nodeTimeout as real).1.None?
      ensures var (b, t, _, _) := SensorOutcome(a, tracker, nodes, d, clock, now);
        t == tracker[First(d, "node") := nodeTimeout] && NodeKey(First(d, "node")) !in b.active
    {
      var id := First(d, "node");
      var nodeType := First(d, "t");
      var a1 := Clear(nodeMap, a, NodeKey(id), nodeTimeout as real).0;
      assert NodeKey(id) !in a1.active;
      if nodeType in controlRules {
        RulesKeepNodeTimeoutAlerts(nodeMap, a1, controlRules[nodeType], d, clock, now, id);
        var a2 := ApplyRules(nodeMap, a1, controlRules[nodeType], d, clock, now).0;
        if "signal" in controlRules {
          RulesKeepNodeTimeoutAlerts(nodeMap, a2, controlRules["signal"], d, clock, now, id);
        }
      } else if "signal" in controlRules {
        RulesKeepNodeTimeoutAlerts(nodeMap, a1, controlRules["signal"], d, clock, now, id);
      }
    }

    /** TrackTime: one wait of the tick clock. */
    method TrackTime(now: int)
      modifies this`timeTrack, this`outbox
      ensures timeTrack == TrackTimeStep(old(timeTrack), tickFreq).0
      ensures outbox == old(outbox) + (if TrackTimeStep(old(timeTrack), tickFreq).1 then [Tick(now)] else [])
    {
      timeTrack := timeTrack - TimeTrackWait;
      if timeTrack <= 0 {
        timeTrack := tickFreq;
        outbox := outbox + [Tick(now)];
      }
    }

    /** SendAlert */
    method SendAlert(value: real, rule: AlertRule, nodeID: string, now: int) returns (raised: Option<Error>)
      modifies this`activeAlerts, this`outbox
      ensures (AlertState(), raised) == Raise(nodeMap, old(AlertState()), AlertKey(rule, nodeID), value, now)
    {
      var key := AlertKey(rule, nodeID);
      if key !in activeAlerts {
        activeAlerts := activeAlerts[key := Stamp(now, now)];
        raised := ComposeError(nodeMap, key);
        if raised.None? {
          outbox := outbox + [AlertRaised(key, value)];
        }
      } else {
        activeAlerts := activeAlerts[key := activeAlerts[key].(modified := now)];
        raised := None;
      }
    }

    /** ClearAlert */
    method ClearAlert(value: real, rule: AlertRule, nodeID: string) returns (raised: Option<Error>)
      modifies this`activeAlerts, this`outbox
      ensures (AlertState(), raised) == Clear(nodeMap, old(AlertState()), AlertKey(rule, nodeID), value)
    {
      var key := AlertKey(rule, nodeID);
      raised := None;
      if key in activeAlerts {
        raised := ComposeError(nodeMap, key);
        if raised.None? {
          outbox := outbox + [AlertCleared(key, value)];
          activeAlerts := activeAlerts - {key};
        }
      }
    }

    /** _ResetNodeTimeout: any node id that reports, configured or not, gets
      the full countdown back, and its node timeout alert is cleared. */
    method ResetNodeTimeout(nodeID: string) returns (raised: Option<Error>)
      modifies this`nodeTimeoutTracker, this`activeAlerts, this`outbox
      ensures nodeTimeoutTracker == old(nodeTimeoutTracker)[nodeID := nodeTimeout]
      ensures (AlertState(), raised) == Clear(nodeMap, old(AlertState()), NodeKey(nodeID), nodeTimeout as real)
    {
      nodeTimeoutTracker := nodeTimeoutTracker[nodeID := nodeTimeout];
      raised := ClearAlert(nodeTimeout as real, NodeTimeoutAlert, nodeID);
    }

    /** _TrackNodeTimeout: every tracked node's positive countdown is lowered
      by one tick, and every node whose countdown is then at or below zero
      has its node timeout alert raised, in dict order; an alert that cannot
      be composed raises out of the loop. */
    method TrackNodeTimeout(now: int) returns (raised: Option<Error>)
      modifies this`nodeTimeoutTracker, this`activeAlerts, this`outbox
      ensures nodeTimeoutTracker.Keys == old(nodeTimeoutTracker).Keys
      ensures old(activeAlerts).Keys <= activeAlerts.Keys && old(outbox) <= outbox
      ensures raised.None? ==>
                && (forall id :: id in old(nodeTimeoutTracker) ==>
                      nodeTimeoutTracker[id] == Countdown(old(nodeTimeoutTracker)[id], tickFreq))
                && (forall id :: id in nodeTimeoutTracker && nodeTimeoutTracker[id] <= 0 ==> NodeKey(id) in activeAlerts)
                && (forall id :: id in nodeTimeoutTracker && nodeTimeoutTracker[id] <= 0 && NodeKey(id) !in old(activeAlerts) ==>
                      AlertRaised(NodeKey(id), nodeTimeout as real) in outbox[|old(outbox)|..])
                && (forall k :: k in activeAlerts ==>
                      k in old(activeAlerts) || (k.rule == NodeTimeoutAlert && k.node in nodeTimeoutTracker && nodeTimeoutTracker[k.node] <= 0))
                && (forall e :: e in outbox[|old(outbox)|..] ==>
                      && e.AlertRaised? && e.key == NodeKey(e.key.node) && e.value == nodeTimeout as real
                      && e.key.node in nodeTimeoutTracker && nodeTimeoutTracker[e.key.node] <= 0 && e.key !in old(activeAlerts))
                && (forall i, j :: |old(outbox)| <= i < j < |outbox| ==> outbox[i] != outbox[j])
      ensures raised.Some? ==> exists id :: id in nodeTimeoutTracker && Lookup(nodeMap, id).None? && raised == Some(MissingKey(id))
    {
      var todo := nodeTimeoutTracker.Keys;
      ghost var done: set<string> := {};
      ghost var sent: seq<Event> := [];
      raised := None;
      while todo != {}
        invariant todo + done == old(nodeTimeoutTracker).Keys && todo !! done && raised.None?
        invariant nodeTimeoutTracker.Keys == old(nodeTimeoutTracker).Keys
        invariant forall id :: id in todo ==> nodeTimeoutTracker[id] == old(nodeTimeoutTracker)[id]
        invariant outbox == old(outbox) + sent
        invariant Swept(done, old(nodeTimeoutTracker), nodeTimeoutTracker, old(activeAlerts), activeAlerts, sent, nodeTimeout as real, tickFreq)
        decreases todo
      {
        var nodeID :| nodeID in todo;
        raised, sent := SweepNode(nodeID, now, done, old(nodeTimeoutTracker), old(activeAlerts), old(outbox), sent);
        if raised.Some? {
          return;
        }
        todo := todo - {nodeID};
        done := done + {nodeID};
      }
      assert outbox[|old(outbox)|..] == sent;
    }

    /** The body of _TrackNodeTimeout's loop: TrackNode on one more node,
      keeping Swept over the pass that started from t0, a0 and outbox o0. */
    method SweepNode(nodeID: string, now: int, ghost done: set<string>, ghost t0: map<string, int>,
                     ghost a0: map<AlertKey, Stamp>, ghost o0: seq<Event>, ghost sent: seq<Event>)
      returns (raised: Option<Error>, ghost sent1: seq<Event>)
      requires nodeID in t0 && nodeID !in done && nodeID in nodeTimeoutTracker && nodeTimeoutTracker[nodeID] == t0[nodeID]
      requires Swept(done, t0, nodeTimeoutTracker, a0, activeAlerts, sent, nodeTimeout as real, tickFreq)
      requires outbox == o0 + sent
      modifies this`nodeTimeoutTracker, this`activeAlerts, this`outbox
      ensures nodeTimeoutTracker == old(nodeTimeoutTracker)[nodeID := Countdown(old(nodeTimeoutTracker)[nodeID], tickFreq)]
      ensures old(activeAlerts).Keys <= activeAlerts.Keys && old(outbox) <= outbox
      ensures raised.None? ==> Swept(done + {nodeID}, t0, nodeTimeoutTracker, a0, activeAlerts, sent1, nodeTimeout as real, tickFreq)
      ensures raised.None? ==> outbox == o0 + sent1
      ensures raised.Some? ==> Lookup(nodeMap, nodeID).None? && raised == Some(MissingKey(nodeID))
    {
      ghost var (t, a) := (nodeTimeoutTracker, activeAlerts);
      raised := TrackNode(nodeID, now);
      sent1 := sent;
      if raised.None? {
        ghost var ev := if nodeTimeoutTracker[nodeID] <= 0 && NodeKey(nodeID) !in a
                        then [AlertRaised(NodeKey(nodeID), nodeTimeout as real)] else [];
        SweepStep(done, nodeID, t0, t, nodeTimeoutTracker, a0, a, activeAlerts, sent, ev, nodeTimeout as real, tickFreq);
        sent1 := sent + ev;
      }
    }

    /** One node of _TrackNodeTimeout's loop: its countdown is lowered if
      positive, and an alert is raised for it once the countdown is at or
      below zero. */
    method TrackNode(nodeID: string, now: int) returns (raised: Option<Error>)
      requires nodeID in nodeTimeoutTracker
      modifies this`nodeTimeoutTracker, this`activeAlerts, this`outbox
      ensures nodeTimeoutTracker == old(nodeTimeoutTracker)[nodeID := Countdown(old(nodeTimeoutTracker)[nodeID], tickFreq)]
      ensures old(activeAlerts).Keys <= activeAlerts.Keys
      ensures forall k :: k in activeAlerts ==> k in old(activeAlerts) || (k == NodeKey(nodeID) && nodeTimeoutTracker[nodeID] <= 0)
      ensures raised.None? && nodeTimeoutTracker[nodeID] <= 0 ==> NodeKey(nodeID) in activeAlerts
      ensures raised.None? ==>
                outbox == old(outbox) + (if nodeTimeoutTracker[nodeID] <= 0 && NodeKey(nodeID) !in old(activeAlerts)
                                         then [AlertRaised(NodeKey(nodeID), nodeTimeout as real)] else [])
      ensures raised.Some? ==> old(outbox) <= outbox
      ensures raised.Some? ==> Lookup(nodeMap, nodeID).None? && raised == Some(MissingKey(nodeID))
      ensures (AlertState(), nodeTimeoutTracker[nodeID]) ==
                SilentTicks(nodeMap, tickFreq, nodeTimeout as real, old(AlertState()), nodeID, old(nodeTimeoutTracker)[nodeID], 1, now)
    {
      if nodeTimeoutTracker[nodeID] > 0 {
        nodeTimeoutTracker := nodeTimeoutTracker[nodeID := nodeTimeoutTracker[nodeID] - tickFreq];
      }
      raised := None;
      if nodeTimeoutTracker[nodeID] <= 0 {
        raised := SendAlert(nodeTimeout as real, NodeTimeoutAlert, nodeID, now);
      }
    }

    /** _SendCommand(rule, onOff): hand the block's command to Command.Shell. */
    method SendCommand(c: Option<Condition>, onOff: string) returns (raised: Option<Error>)
      modifies this`outbox
      ensures CommandOf(c, onOff).Dispatch? ==> outbox == old(outbox) + [Dispatched(CommandOf(c, onOff).cmd)] && raised.None?
      ensures CommandOf(c, onOff).TailFail? ==> outbox == old(outbox) && raised == Some(CommandOf(c, onOff).error)
    {
      if c.None? {
        return Some(MissingKey(onOff));
      }
      if c.value.cmd.None? {
        return Some(MissingKey("cmd"));
      }
      outbox := outbox + [Dispatched(c.value.cmd.value)];
      raised := None;
    }

    /** _EvalRule */
    method EvalRule(rule: Rule, data: Query, now: int, clock: TimeOfDay) returns (raised: Option<Error>)
      modifies this`activeAlerts, this`outbox
      ensures (AlertState(), raised) == ApplyDecision(nodeMap, old(AlertState()), Decide(nodeMap, rule, data, clock), now)
    {
      raised := None;
      if rule.enabled != 1 {
        return;
      }
      var nodeID: Option<string> := None;
      if "node" in data {
        var id := First(data, "node");
        var name := Lookup(nodeMap, id);
        if name.None? {
          return Some(MissingKey(id));
        }
        if rule.node.Some? && name.value != rule.node.value {
          return;
        }
        nodeID := Some(id);
      }
      if rule.value !in data {
        return Some(MissingKey(rule.value));
      }
      var parsed := ParseReal(First(data, rule.value));
      if parsed.None? {
        return Some(BadNumber(First(data, rule.value)));
      }
      var value := parsed.value;
      if rule.alert.Some? && nodeID.Some? {
        var verdict := EvalCondition(value, rule.alert.value, clock);
        if verdict.Fail? {
          return Some(verdict.error);
        }
        if verdict.value == ReturnedTrue {
          raised := SendAlert(value, RuleAlert(rule), nodeID.value, now);
        } else {
          raised := ClearAlert(value, RuleAlert(rule), nodeID.value);
        }
        if raised.Some? {
          return;
        }
      }
      raised := EvalCommands(rule, value, clock);
    }

    /** The part of _EvalRule after the alert, which sends at most one
      command. */
    method EvalCommands(rule: Rule, value: real, clock: TimeOfDay) returns (raised: Option<Error>)
      modifies this`outbox
      ensures var tail := TailOf(rule, value, clock);
        && (tail == Done ==> outbox == old(outbox) && raised.None?)
        && (tail.Dispatch? ==> outbox == old(outbox) + [Dispatched(tail.cmd)] && raised.None?)
        && (tail.TailFail? ==> outbox == old(outbox) && raised == Some(tail.error))
    {
      if rule.time.Some? {
        var pre := EvalCondition(value, rule.time.value, clock);
        if pre.Fail? {
          return Some(pre.error);
        }
        if pre.value == ReturnedFalse {
          raised := SendCommand(rule.off, "off");
          return;
        }
      }
      if rule.on.Some? {
        var on := EvalCondition(value, rule.on.value, clock);
        if on.Fail? {
          return Some(on.error);
        }
        if on.value == ReturnedTrue {
          raised := SendCommand(rule.on, "on");
          return;
        }
      }
      if rule.off.Some? {
        var off := EvalCondition(value, rule.off.value, clock);
        if off.Fail? {
          return Some(off.error);
        }
        if off.value == ReturnedTrue {
          raised := SendCommand(rule.off, "off");
          return;
        }
      }
      raised := None;
    }

    /** `for rule in ruleList: self._EvalRule(rule, d)`; an exception ends
      the loop and the callback. */
    method EvalRules(rules: seq<Rule>, data: Query, now: int, clock: TimeOfDay) returns (raised: Option<Error>)
      modifies this`activeAlerts, this`outbox
      ensures (AlertState(), raised) == ApplyRules(nodeMap, old(AlertState()), rules, data, clock, now)
    {
      var k := 0;
      raised := None;
      while k < |rules|
        invariant 0 <= k <= |rules|
        invariant ApplyRules(nodeMap, old(AlertState()), rules, data, clock, now)
                  == ApplyRules(nodeMap, AlertState(), rules[k..], data, clock, now)
        invariant raised.None?
      {
        assert rules[k..][0] == rules[k] && rules[k..][1..] == rules[k + 1..];
        raised := EvalRule(rules[k], data, now, clock);
        if raised.Some? {
          return;
        }
        k := k + 1;
      }
    }

    /** CallbackSensor */
    method CallbackSensor(payload: Option<Query>, now: int, clock: TimeOfDay) returns (raised: Option<Error>)
      modifies this`activeAlerts, this`outbox, this`nodeTimeoutTracker, report
      ensures Dropped(payload) ==>
                && raised.None? && activeAlerts == old(activeAlerts) && outbox == old(outbox)
                && nodeTimeoutTracker == old(nodeTimeoutTracker) && report.nodes == old(report.nodes)
      ensures !Dropped(payload) ==>
                (AlertState(), nodeTimeoutTracker, report.nodes, raised)
                == SensorOutcome(old(AlertState()), old(nodeTimeoutTracker), old(report.nodes), payload.value, clock, now)
    {
      if Dropped(payload) {
        return None;
      }
      var d := payload.value;
      var nodeType := First(d, "t");
      if "node" in d {
        raised := ResetNodeTimeout(First(d, "node"));
        if raised.Some? {
          return;
        }
      }
      if nodeType in controlRules {
        raised := EvalRules(controlRules[nodeType], d, now, clock);
        if raised.Some? {
          return;
        }
      }
      if "signal" !in controlRules {
        return Some(MissingKey("signal"));
      }
      raised := EvalRules(controlRules["signal"], d, now, clock);
      if raised.Some? {
        return;
      }
      raised := report.Update(d);
    }

    /** CallbackTime: a payload carrying "ts" runs the timer rules, if any
      are configured, and then one pass of the liveness countdown. */
    method CallbackTime(payload: Option<Query>, now: int, clock: TimeOfDay) returns (raised: Option<Error>)
      modifies this`activeAlerts, this`outbox, this`nodeTimeoutTracker
      ensures payload.None? || "ts" !in payload.value ==>
                raised.None? && AlertState() == old(AlertState()) && nodeTimeoutTracker == old(nodeTimeoutTracker)
      ensures payload.Some? && "ts" in payload.value ==>
                var (a, err) := ApplyRules(nodeMap, old(AlertState()), if timerRules.Some? then timerRules.value else [],
                                           payload.value, clock, now);
                && (err.Some? ==> raised == err && AlertState() == a && nodeTimeoutTracker == old(nodeTimeoutTracker))
                && (err.None? && raised.None? ==>
                      forall id :: id in old(nodeTimeoutTracker) ==>
                        id in nodeTimeoutTracker && nodeTimeoutTracker[id] == Countdown(old(nodeTimeoutTracker)[id], tickFreq))
    {
      if payload.None? || "ts" !in payload.value {
        return None;
      }
      var d := payload.value;
      if timerRules.Some? {
        raised := EvalRules(timerRules.value, d, now, clock);
        if raised.Some? {
          return;
        }
      }
      raised := TrackNodeTimeout(now);
    }
  }
}
