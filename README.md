# Humble Roots Project daemons, modelled in Dafny

This project models the daemons of the Humble Roots Project, a home-grow
controller. Sensor nodes report over a serial gateway, and the daemons talk
to each other over MQTT topics. The parts modelled are:

- **Conditions** and **Control**: the controller (`control.py`, class
  `Controller`). It evaluates rule conditions (thresholds, time-of-day
  windows, bare commands) against each sensor payload. It keeps an
  active-alert table, so a condition that stays true alerts once. It hands
  at most one on/off command per rule to the command dispatcher. Each node
  has a liveness countdown: reports reset it and timer ticks lower it. It
  also drives the tick clock.
- **Send**: the command dispatcher (`send.py`, class `Command`).
  - Commands are decoded, and their symbolic fields are resolved against
    configuration tables.
  - Each attempt is tagged with a fresh token and published.
  - A clock counts the token's time down, and inbound acknowledgements set
    its status.
  - The sender polls the status, retries a bounded number of times, and
    deletes every token it made.
- **Report**: the status report (`report.py`). Each payload updates the
  report rules of its node in place. The body lists every node's values or
  recorded states.
- **Db**: the database writer (`db.py`). `SensorDataParser` turns an
  accepted payload into a point with one column per measured key.
  `InfluxDBWriter` numbers the point and writes it.
- **Notify**: the notifier (`notify.py`).
  - Inbound notes from the push service are forwarded to the controller
    as commands. This applies only to notes that are live, newer than the
    watermark, not sent by the notifier itself, and shaped like a command.
  - Notification requests from the other daemons become outgoing notes
    and text messages.
- **Serial**: the serial framer (`serialadapter.py`, `SerialAdapter.run`).
  It removes carriage returns, cuts lines at line feeds, waits for the
  gateway's banner line, and delivers every later line.
- **Wire**: shared vocabulary:
  - the decoded form of a URL-encoded payload;
  - an Error type for every exception the code relies on;
  - configuration tables in dict iteration order;
  - the integer and decimal literals that `int()` and `float()` accept.

How the model represents the system:

- **Exceptions** become a `Result` failure or a returned `Option<Error>`.
  An exception ends the caller, as it does in the code.
- **Publications** to other daemons are recorded, in order, in ghost logs:
  - `Controller.outbox`;
  - `Command.published`;
  - `InfluxDBWriter.written`;
  - `Notifier.commands` and `Notifier.requests`.
- **Clocks and random values** are parameters: `now`, `clock`, and the
  random start of the token counter.
- **Code outside the core** is a function-typed parameter: URL encoding and
  decoding, the Hashids token encoder, and `str()` of a float.
- **Time** is counted in integer centiseconds. The code's constants are
  0.01 s, 0.5 s and -1.0 s, and they become 1, 50 and -100.

The model follows the code in these places, where a reader might expect
otherwise:

- **Attempt count.** `_SendCommand` makes `MAX_SEND_COMMAND_RETRIES` (2)
  attempts in total, not that many retries after a first attempt.
- **Stop signal.** When the exit event is set, `_SendCommand` returns
  Pending, not Timeout.
- **Rule failures.** A rule that raises aborts the rest of the callback:
  the remaining rules, the signal rules and the report update. Sibling
  rules do not keep running after it.
- **Missing fields.** A missing value field raises instead of skipping the
  rule silently.
- **Liveness floor.** The liveness countdown is lowered only while it is
  positive. There is no separate floor value.

## Model

| member | source | states |
|---|---|---|
| Conditions.ClockTime | control.py:257-260 | a configured HH:MM bound becomes a time of day exactly when the hour is 0..23 and the minute is 0..59. That time is a whole minute, and its hour and minute read back as the configured ones |
| Conditions.ClockTimeOrder | control.py:257-260 | valid bounds are ordered as `datetime.time` orders them, by hour and then by minute, and equal times come only from equal bounds |
| Conditions.EvalCondition | control.py:254-287 | the from/to window is checked before op/setpoint. A window holds exactly when the current time lies inside it, and fails on an invalid bound. A threshold with a known operator never yields False (a failed comparison falls through to None), and an unknown operator raises. A bare command is True. Anything else is False |
| Conditions.ThresholdMeaning | control.py:262-281 | for any threshold block, whatever cmd or title it carries: for each of the six operators it is True exactly when the comparison of value and setpoint holds and None otherwise, and any other operator raises |
| Conditions.WrappingWindowIsComplement | control.py:289-299 | a window whose start is after its end holds exactly outside the closed interval from its end to its start |
| Conditions.SwappedWindowsPartitionTheDay | control.py:289-299 | a window and the same window with its ends swapped never both hold, and together they cover every instant except the two ends |
| Conditions.OvernightWindowExample | control.py:254-261 | a 22:00-06:00 window holds at 23:30 and at 02:00 but not at noon |
| Control.RaiseMeaning | control.py:180-189 | raising leaves the alert active and keeps every other entry. An already active alert only has its modified stamp moved and publishes nothing. A new alert is inserted and published unless composing it raises |
| Control.ClearMeaning | control.py:236-242 | clearing an inactive alert changes nothing. Clearing an active alert publishes the clear and removes the alert, unless composing the clear raises, in which case nothing changes |
| Control.RepeatedRaisePublishesOnce | control.py:180-189 | a condition that stays true alerts once: the second raise publishes nothing and keeps the creation stamp |
| Control.RaiseClearRaise | control.py:236-242 | raise, clear and raise again restores the alert table between the steps and publishes all three events in order |
| Control.SilentNodeAlertsOnce | control.py:124-131 | a node that stops reporting is alerted exactly once over n liveness passes if n ticks cover its countdown, and not at all otherwise |
| Control.StaysRaised | control.py:124-131 | once a node timeout alert is active, further liveness passes publish nothing for that node |
| Control.NoTickBeforeCountdown | control.py:59-66 | fewer TrackTime calls than the remaining countdown publish no tick |
| Control.TickAtCountdown | control.py:59-66 | the call that brings the countdown to zero publishes one tick and restarts the period |
| Control.OneTickPerPeriod | control.py:59-66 | k full periods of TrackTime calls publish exactly k ticks and end on a full period |
| Control.DecideOrder | control.py:152-178 | a disabled rule does nothing. A rule scoped to another node returns before the alert, and a rule for its own node goes on. Without a node in the payload there is no alert. A time precondition that is False sends "off" whatever "on" says. A true "on" sends its command when the precondition is not False |
| Control.AtMostOneCommand | control.py:165-178 | one rule publishes at most two events, and a command it dispatches is the last of them |
| Control.DisabledRulesDoNothing | control.py:152-153 | a rule list with no enabled rule leaves the alert table and the published events unchanged and raises nothing |
| Control.RulesKeepNodeTimeoutAlerts | control.py:165-169 | control rules never raise or clear a node timeout alert |
| Control.InitialTracker | control.py:118-122 | the liveness map holds exactly the configured node ids, each at the full countdown |
| Control.Controller.constructor | control.py:37-51 | the controller starts with no active alerts, the full liveness map, the tick countdown at one period and nothing published |
| Control.Controller.InitNodeTimeoutTracker | control.py:118-122 | the loop builds the liveness map InitialTracker describes |
| Control.Controller.ReportingNodeIsAlive | control.py:93-105 | after a sensor callback, the reporting node has its full countdown back and no node timeout alert, whatever the rules after it do |
| Control.Controller.TrackTime | control.py:59-66 | the tick countdown goes down by one wait. On reaching zero it is reset to the period and a tick carrying the current time is published |
| Control.Controller.SendAlert | control.py:180-189 | the alert table and outbox change as Raise says (see RaiseMeaning) |
| Control.Controller.ClearAlert | control.py:236-242 | the alert table and outbox change as Clear says (see ClearMeaning) |
| Control.Controller.ResetNodeTimeout | control.py:133-137 | the reporting node id, configured or not, gets the full countdown, and its node timeout alert is cleared |
| Control.Controller.TrackNode | control.py:127-130 | one node's countdown is lowered if positive. At or below zero it gets an active timeout alert, published only if new. No other alert is added, and an exception comes only from an unconfigured node id. The node's new countdown and the alert state equal one step of `SilentTicks`, the sequence of passes `SilentNodeAlertsOnce` is about |
| Control.Controller.TrackNodeTimeout | control.py:124-131 | the tracked ids are unchanged. When nothing raises, every positive countdown is lowered by one tick. Every node at or below zero then has an active timeout alert, and no other alert is added. The pass publishes exactly the timeout alerts of nodes at or below zero whose alert was not active before, each once, and nothing else. An exception comes only from an unconfigured node id |
| Control.SweepStep | control.py:126-130 | one more node through the loop keeps the pass's invariant: countdowns lowered, alerts for the nodes at or below zero, the new ones published once each, no other alert |
| Control.Controller.SendCommand | control.py:250-252 | the on/off block's command is dispatched. A missing block or a block without a command raises and dispatches nothing |
| Control.Controller.EvalRule | control.py:152-178 | the alert table and outbox change as the rule's decision says, stopping at the first exception (see DecideOrder and AtMostOneCommand) |
| Control.Controller.EvalCommands | control.py:170-178 | at most one command is dispatched, the one TailOf picks. A failing condition raises and dispatches nothing |
| Control.Controller.EvalRules | control.py:98-103 | the rules run in order, and the first exception ends the loop with the effects of the rules before it |
| Control.Controller.CallbackSensor | control.py:82-105 | a payload that does not decode, or whose type is missing or not accepted, changes nothing. Otherwise, in order: the node's liveness is reset, the rules of its type run, then the signal rules, then the report update. The first exception stops the rest |
| Control.Controller.CallbackTime | control.py:107-116 | a payload without "ts" changes nothing. Otherwise the timer rules run first, and an exception there leaves the liveness map untouched. Then every positive countdown is lowered by one tick |
| Send.StatusTablesAreInverse | send.py:59-69 | the status-to-string and string-to-status tables are inverse over the four statuses |
| Send.ElapsedTouchesOnlyTime | send.py:138-147 | a clock pass changes only remaining times. Every entry at or above -1.0 s goes down by one wait, and no entry goes below the floor |
| Send.StatusOf | send.py:149-156 | a countdown below zero is a timeout whatever the status string says. Otherwise a known status string gives the status that prints as it, and an unknown string raises |
| Send.WithStatus | send.py:190-197 | an acknowledgement sets the status of a registered token only: times and other entries are kept, and an unknown token changes nothing |
| Send.AppendToken | send.py:99-100 | the payload is the command followed by "&tok=" and the token |
| Send.AppendTokenDistinguishes | send.py:99-100 | the same command sent with two different tokens gives two different payloads |
| Send.GetKeyByValue | send.py:179-183 | the result is the first key, in iteration order, whose value matches, and None exactly when no value matches |
| Send.KeyByValueRoundTrip | send.py:179-183 | in a table with distinct keys, the key found for a value maps back to that value |
| Send.ResolveField | send.py:160-175 | a key that names no configuration table, or a decimal-integer first value, is kept as it is. Only the first value is ever rewritten, and a field that fails raises Unresolved naming the key and its first value |
| Send.SymbolicFieldMeaning | send.py:160-175 | a symbolic first value fails to resolve exactly when the table holds no entry with that value. Otherwise it is replaced by the first key, in iteration order, under which the table holds it |
| Send.Resolve | send.py:158-177 | resolution succeeds exactly when every field resolves, and then rewrites each field independently. A failure names a field that does not resolve |
| Send.ResolvedFieldMapsBack | send.py:168-174 | a symbolic field is replaced by the table key whose entry is the symbol |
| Send.Command.constructor | send.py:50-69 | the dispatcher starts with the random counter, no tokens, the exit event clear and nothing published |
| Send.Command.GetToken | send.py:102-108 | the counter goes up by one, and the new token is fresh: it is not in the table. It is registered with a full countdown and an empty (pending) status |
| Send.Command.DeleteToken | send.py:110-113 | the token's entry is removed and nothing else changes |
| Send.Command.ElapseTime | send.py:138-147 | the token table after one clock pass is Elapsed of the one before (see ElapsedTouchesOnlyTime) |
| Send.Command.DeliverAck | send.py:190-197 | the table changes as WithStatus says |
| Send.Command.SerialRxCallback | send.py:185-197 | a payload without both "&tok=" and "&tx=" changes nothing and raises nothing. With both, a payload that does not decode raises Malformed, and one without "tok" or "tx" raises KeyError for it, leaving the table unchanged. Otherwise the token's status is set to the received result, and an unknown token is ignored |
| Send.Command.Poll | send.py:127-129 | an acknowledgement for the token sets its status, then either the clock passes once or the exit event is set. The status read is that of the token's new entry, and an immediate "ack" with time left reads as Ack |
| Send.Command.AwaitStatus | send.py:127-129 | the token stays registered. Pending is returned only when the exit event was set. A silent node gives Timeout, and an immediate acknowledgement gives Ack |
| Send.Command.Prepare | send.py:123-124 | the text to publish exists exactly when the command decodes and every field resolves, and is then the encoded resolved command. A command that does not decode raises Malformed |
| Send.Command.Attempt | send.py:119-135 | each attempt uses one fresh token and deletes it. A resolvable command is published with the token appended. A command that does not decode or resolve publishes nothing and raises |
| Send.Command.SendCommand | send.py:115-136 | at most two attempts are made, and the table holds the same tokens at the end as at the start: no token is left behind. The published payloads are the resolved command with consecutive tokens. Nack or Timeout means both attempts ran or the exit event was set. An unresolvable command makes one attempt and returns Pending. A silent node gives Timeout after two attempts, and an immediate acknowledgement gives Ack after one |
| Report.GetValueMeaning | report.py:38-43 | a value is mapped through the configuration table of its key's name when there is one, and read as a number otherwise. A missing field, a missing table entry or text that is not a number raises |
| Report.GetStateMeaning | report.py:45-50 | a state is mapped through the configuration table of its key's name when there is one, and kept as text otherwise. A missing table entry raises |
| Report.SetState | report.py:34 | recording a state adds at most one entry, and none when the value already has a state |
| Report.SetStateRecords | report.py:34 | after recording, the value's state is the new one and every other value's state is unchanged |
| Report.UpdateRuleMeaning | report.py:31-36 | a rule whose state field is in the payload records the new state for the new value, keeps every other state and leaves valueData alone. Any other rule gets the new value and keeps its states |
| Report.UpdateRulesUpTo | report.py:30-36 | every rule up to the first that raises is updated, and the rules after it are left as they were |
| Report.UpdateRulesRaises | report.py:30-36 | the loop raises exactly when one of the rules' updates does |
| Report.FindNode | report.py:29 | the position found is the first that holds the node's rule list, and None means the node has no report rules |
| Report.UpdateNodes | report.py:26-36 | a payload without a node changes nothing. An unconfigured node id raises its KeyError, and so does a node name without report rules; both change nothing. Otherwise only that node's rules change, to the result of the rule loop with its error, and every other node is left as it was |
| Report.StateLines | report.py:62-63 | one line per recorded state, each showing its value and state, in the order of the model's list (insertion order, see Left out) |
| Report.BodyHeaders | report.py:52-65 | the body has a header for every configured node and no header for anything else |
| Report.UpdatedValueIsReported | report.py:59-60 | after an update that did not raise, a value rule of the reporting node appears in the body with the value just received |
| Report.Report.constructor | report.py:22-24 | the report starts with the configured nodes and tables |
| Report.Report.Update | report.py:26-36 | the report's nodes change as UpdateNodes says (see UpdateRuleMeaning, UpdateRulesUpTo and UpdatedValueIsReported) |
| Report.Report.UpdateRuleList | report.py:30-36 | the in-place loop over a node's rules gives UpdateRules' outcome |
| Report.Report.RuleText | report.py:59-63 | the rule's value line, or one line per recorded state, rendered |
| Report.Report.NodeText | report.py:56-64 | the node's header, its rules' lines and the divider, rendered |
| Report.Report.GetBody | report.py:52-65 | the body is the rendering of BodyLines of the current nodes (see BodyHeaders and UpdatedValueIsReported) |
| Db.ParsePointIsFloat | db.py:103-107 | trying int() first loses nothing: a point parses exactly when float() accepts the text, and has float()'s value |
| Db.UnknownNodesGetDistinctSeries | db.py:111-116 | two unconfigured node ids never share a series name |
| Db.BuildPointsColumns | db.py:96-109 | the method succeeds exactly when every non-excluded key parses. The columns are exactly the non-excluded keys, each once, and each point is its column's parsed value. A failure is the parse error of some key |
| Db.InfluxDBWriter.constructor | db.py:31-34 | the writer starts unconnected at sequence 0 |
| Db.InfluxDBWriter.Connect | db.py:36-42 | the writer has a client |
| Db.InfluxDBWriter.Disconnect | db.py:44-45 | the writer has no client |
| Db.InfluxDBWriter.Write | db.py:47-61 | without an explicit number the sequence goes up by one and numbers the point. Time and the sequence number lead the columns and points. With no client the call raises after the counter has moved, and nothing is written |
| Db.SensorDataParser.constructor | db.py:66-73 | the parser keeps its writer, accepted types and node names |
| Db.SensorDataParser.Callback | db.py:75-94 | a dropped payload raises nothing, writes nothing and leaves the counter alone. A payload whose points, series name or epoch do not parse raises before the counter moves and writes nothing. With no client the counter moves, nothing is written and NoClient is raised. An accepted payload whose points, series name and epoch all parse, with a connected writer, writes one body. The body has the next sequence number, the series name, time and sequence first, then one aligned column per measured key |
| Notify.IdentifyDevice | notify.py:67-71 | the result is the iden of the first device carrying the nickname, and None exactly when none does |
| Notify.ForwardVerdict | notify.py:92-110 | a note is forwarded exactly when its title lacks the notifier's signature and its lower-cased body decodes to a command shape |
| Notify.NoteEchoIsNotForwarded | notify.py:89-94 | a note the notifier pushed itself is never forwarded back as a command |
| Notify.VerdictIgnoresCase | notify.py:97 | bodies that differ only in letter case get the same verdict |
| Notify.WatermarkNeverDecreases | notify.py:80-87 | a pass over the push history never moves the watermark back |
| Notify.RaisedIsFinal | notify.py:83-87 | after a push raises, the rest of the history changes nothing |
| Notify.ForwardedGrows | notify.py:83-87 | the bodies forwarded before a pass stay at the front of the log |
| Notify.StepForwards | notify.py:84-87 | a step forwards nothing, or the body of a qualifying note whose title lacks the signature |
| Notify.ForwardsOnlyFreshCommands | notify.py:80-87 | every body a pass forwards belongs to a live note in the history that was newer than the starting watermark and not signed by the notifier |
| Notify.Notifier.constructor | notify.py:37-50 | the handler table is the configured types plus "note" and "alert" bound to the built-in pushers, and there is no watermark yet |
| Notify.Notifier.ForwardMessage | notify.py:92-110 | the body, unchanged, is published on the command topic exactly when ForwardVerdict says Forward |
| Notify.Notifier.CallbackInbound | notify.py:80-87 | a stream message that is not a dict with type and subtype changes nothing. Otherwise the watermark, the forwarded commands and the exception are those of a pass over the history (see ForwardsOnlyFreshCommands) |
| Notify.Notifier.PushAlert | notify.py:126-135 | a text message carrying the body is requested. A missing body raises and requests nothing |
| Notify.Notifier.PushNote | notify.py:137-144 | a note with the signed title and the body is requested. A missing title or body is swallowed and requests nothing |
| Notify.Notifier.CallbackNotify | notify.py:112-124 | the payload's type picks the handler. A configured type that is not a function raises. Undecodable payloads, unknown types and a KeyError inside a pusher are only logged |
| Notify.Notifier.CallbackStopEvent | notify.py:146-149 | the first configuration message leaves the notifier running, and every later one stops it |
| Serial.FrameSplitsText | serialadapter.py:42-70 | framing loses and invents nothing. The text read is the skipped lines, the banner, the delivered lines in order, and the unfinished line, which is never delivered. No line holds a carriage return or a line feed |
| Serial.AnyBannerUnlocks | serialadapter.py:52-58 | with the banner test as written, no line is ever skipped, and a wrong first line still unlocks delivery of the second |
| Serial.CheckedBannerGuardsDelivery | serialadapter.py:52-58 | with the banner checked, nothing is delivered before a line that starts with the expected key. That line is the banner, and every line skipped before it does not start with the key |
| Serial.SerialAdapter.constructor | serialadapter.py:34-36 | the adapter keeps its callback and banner key |
| Serial.SerialAdapter.Run | serialadapter.py:42-70 | the lines handed to the callback are exactly the framer's delivered lines, in order, under the given banner test: as written, or checked against the key. A raising callback does not stop framing, and with no callback nothing is delivered |

## Left out

- Threads, locks and events are not modelled. Each callback runs alone,
  and the clock thread and inbound acknowledgements are steps of an
  environment function during the sender's polls.
- The code has a lock defect that this model does not capture:
  - `_ResetNodeTimeout` puts any reporting node id into the liveness map.
  - When an unconfigured id later times out, `ComposeAlert` raises
    KeyError while `nodeTimeoutTrackerLock` is held.
  - The lock is never released, so the next reset or tick waits forever.
  - The model records only the exception (`TrackNodeTimeout`).
- Floating point is not modelled. Values and setpoints are reals, and
  times are integer centiseconds.
- `str()` of a float is a parameter (`showReal`).
- `Lower` folds the ASCII letters A-Z only. `string.lower` on the push
  service's unicode body folds every letter, so non-ASCII capitals in a
  forwarded body are not lowered in the model. The command keys are
  ASCII.
- `int()` and `float()` accept plain decimal literals only. Surrounding
  whitespace, exponents, `inf` and `nan` are not modelled.
- `GetRuleHash` is abstracted to the (rule, node) pair it digests. An
  MD5 collision is not modelled.
- The text of `ComposeAlert` and `ComposeNote` is not modelled. This
  covers the message format, `strftime` and URL encoding. Their KeyError
  conditions are modelled (`ComposeError`).
- `Controller.SendNote` and `Report.GetTitle` are not modelled. `GetTitle`
  returns the configured title, which is the const `title`.
- `Controller.CallbackShell` is not modelled. It forwards shell commands
  and report requests and is not part of the modelled core.
- `Command.Shell` is not modelled. A dispatched command is recorded as a
  `Dispatched` event rather than run through `_SendCommand`.
- `Start`, `Stop` and `Run` of every daemon are not modelled, nor are
  subscriptions, MQTT, InfluxDB and PushBullet I/O, and the configuration
  sync. A database client is a `connected` flag.
- `Notifier.Start` is not modelled: device registration, `addDevice` and
  `GetLastModified`. `IdentifyDevice` is modelled on its own.
- The configuration is assumed well formed where the code reads it
  unguarded. This covers rule keys, `nodeTimeout`, `timers` (present,
  possibly null), `tick` and the PushBullet keys. Setpoints are assumed to
  be already parsed to reals. A missing `signal` rule list is modelled as
  the KeyError it raises.
- Python 2 dict iteration order:
  - the methods that loop over a dict pick keys with `:|`, so any order
    is allowed;
  - configuration tables and report rules are association lists, taken
    to be in the dict's iteration order.
- Report.StateLines: recorded states are rendered in insertion order.
  `SetState` puts a new value last, but Python 2 iterates the `states`
  dict in hash order. So the order of a rule's state lines is one the
  model picks, not the one the daemon prints.
- Push history entries are typed. Each key is present or absent, and
  values of the wrong type are not modelled.
- Serial read exceptions (`_OnException`) are not modelled. Reads that
  time out are `None`.
- `Write`, `Stop` and `Callback` of `SerialAdapter` are not modelled: they
  are port I/O and printing.
- Send.Command.AwaitStatus: the result is stated for a node that never
  answers, for one that acknowledges during the first poll, and for the
  exit event. Other interleavings of clock passes and acknowledgements
  are not characterised.
- Send.Command.Attempt: the status is characterised only for the same two
  environments as AwaitStatus.
- Send.Command.SendCommand: the result is characterised only for the same
  two environments as AwaitStatus, beyond the bounds it states for every
  environment.
- Control.Controller.TrackNodeTimeout: on an exception, only the node id
  that raised is stated, not the partly updated map.
- Control.Controller.CallbackTime: after the timer rules, only the
  liveness countdown is stated. The alerts raised by that pass are stated
  by TrackNodeTimeout.
- Db.SensorDataParser.Callback: when the points, series name or epoch do
  not parse, only that the call raises is stated, not which error.

## Findings

| source | as written | input that shows it | evidently intended | confidence | as-written member | corrected member |
|---|---|---|---|---|---|---|
| serialadapter.py:55 | `chunk.startswith(self.validDataKey) > -1` compares a bool with -1, which is always true, so the first line is accepted as the banner whatever it says | serial text `x\ny\n` with key "Listening": the line "y" is delivered although no banner was seen | accept a line as the banner only when it starts with the key, and skip earlier lines | not executed | Serial.AnyBannerUnlocks | Serial.CheckedBannerGuardsDelivery |
