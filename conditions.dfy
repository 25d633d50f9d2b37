/** The condition evaluator of the controller (Controller._EvalCondition and
    Controller._IsTimeWithinRange): a condition block of a rule is a numeric
    threshold, a time-of-day window, or a bare command with no guard. */
module Conditions {
  import opened Wire

  const MicrosPerMinute: int := 60 * 1000000
  const MicrosPerDay: int := 24 * 60 * MicrosPerMinute

  /** A wall-clock time of day, in microseconds after midnight (the
      resolution of datetime.now().time()). */
  type TimeOfDay = t: int | 0 <= t < MicrosPerDay

  /** A configured "HH:MM" bound, already split into its two integers. */
  datatype Clock = Clock(hour: int, minute: int)

  /** A condition block as configured: the evaluator looks at which keys are
      present, so every key is optional. */
  datatype Condition = Condition(
    from: Option<Clock>,
    to: Option<Clock>,
    op: Option<string>,
    setpoint: Option<real>,
    cmd: Option<string>,
    title: Option<string>)      // read only when an alert message is composed

  /** What _EvalCondition returns: True, False, or the None it falls through
      to when a threshold comparison fails. */
  datatype Verdict = ReturnedTrue | ReturnedFalse | ReturnedNone

  /** datetime.time(hour, minute), which raises outside 00:00..23:59. */
  function ClockTime(c: Clock): (r: Option<TimeOfDay>)
    ensures r.Some? <==> 0 <= c.hour < 24 && 0 <= c.minute < 60
    ensures r.Some? ==> r.value % MicrosPerMinute == 0
    // the hour and minute read back from the time of day
    ensures r.Some? ==> r.value / (60 * MicrosPerMinute) == c.hour && (r.value / MicrosPerMinute) % 60 == c.minute
  {
    if 0 <= c.hour < 24 && 0 <= c.minute < 60 then Some((c.hour * 60 + c.minute) * MicrosPerMinute) else None
  }

  /** Valid clocks are ordered as datetime.time orders them: by hour,
      then by minute. */
  lemma ClockTimeOrder(a: Clock, b: Clock)
    requires ClockTime(a).Some? && ClockTime(b).Some?
    ensures ClockTime(a).value < ClockTime(b).value <==> a.hour < b.hour || (a.hour == b.hour && a.minute < b.minute)
    ensures ClockTime(a).value == ClockTime(b).value <==> a == b
  {
  }

  predicate IsTimeWindow(c: Condition) {
    c.from.Some? && c.to.Some?
  }

  predicate IsThreshold(c: Condition) {
    !IsTimeWindow(c) && c.op.Some? && c.setpoint.Some?
  }

  predicate IsBareCommand(c: Condition) {
    !IsTimeWindow(c) && !IsThreshold(c) && c.op.None? && c.cmd.Some?
  }

  /** The six comparison operators the evaluator knows. */
  predicate IsKnownOp(op: string) {
    op == "==" || op == ">=" || op == "<=" || op == ">" || op == "<" || op == "!="
  }

  /** Whether the time of day lies inside a window; both ends are excluded,
      a window whose start is after its end wraps past midnight, and a window
      with equal ends holds only at that instant. */
  function IsTimeWithinRange(now: int, from: int, to: int): (r: bool)
  {
    if from > to then now > from || now < to
    else if from < to then now > from && now < to
    else now == from
  }

  function EvalCondition(value: real, c: Condition, now: TimeOfDay): (r: Result<Verdict>)
    // a {from, to} pair is looked at before op, setpoint or cmd
    ensures IsTimeWindow(c) ==> (r.Ok? <==> ClockTime(c.from.value).Some? && ClockTime(c.to.value).Some?)
    ensures IsTimeWindow(c) && r.Ok? ==>
      r.value == if IsTimeWithinRange(now, ClockTime(c.from.value).value, ClockTime(c.to.value).value)
                 then ReturnedTrue else ReturnedFalse
    // a threshold never evaluates to False: a failed comparison falls through to None
    ensures IsThreshold(c) ==> (r.Ok? <==> IsKnownOp(c.op.value))
    ensures IsThreshold(c) && r.Ok? ==> r.value != ReturnedFalse
    ensures IsBareCommand(c) ==> r == Ok(ReturnedTrue)
    ensures !IsTimeWindow(c) && !IsThreshold(c) && !IsBareCommand(c) ==> r == Ok(ReturnedFalse)
  {
    if c.from.Some? && c.to.Some? then
      match (ClockTime(c.from.value), ClockTime(c.to.value))
      case (Some(f), Some(t)) => Ok(if IsTimeWithinRange(now, f, t) then ReturnedTrue else ReturnedFalse)
      case _ => Fail(BadClock)
    else if c.op.Some? && c.setpoint.Some? then
      var op, setPoint := c.op.value, c.setpoint.value;
      if op == "==" then Ok(if value == setPoint then ReturnedTrue else ReturnedNone)
      else if op == ">=" then Ok(if value >= setPoint then ReturnedTrue else ReturnedNone)
      else if op == "<=" then Ok(if value <= setPoint then ReturnedTrue else ReturnedNone)
      else if op == ">" then Ok(if value > setPoint then ReturnedTrue else ReturnedNone)
      else if op == "<" then Ok(if value < setPoint then ReturnedTrue else ReturnedNone)
      else if op == "!=" then Ok(if value != setPoint then ReturnedTrue else ReturnedNone)
      else Fail(InvalidOp(op))
    else if c.op.None? && c.cmd.Some? then Ok(ReturnedTrue)
    else Ok(ReturnedFalse)
  }

  /** For each operator, a threshold block holds exactly when the
      comparison of the value with its setpoint does, and otherwise falls
      through to None; whatever else the block carries (its cmd, its alert
      title) does not matter. */
  lemma ThresholdMeaning(v: real, c: Condition, now: TimeOfDay)
    requires IsThreshold(c)
    ensures var s, r := c.setpoint.value, EvalCondition(v, c, now);
      && (c.op.value == "==" ==> r == Ok(if v == s then ReturnedTrue else ReturnedNone))
      && (c.op.value == ">=" ==> r == Ok(if v >= s then ReturnedTrue else ReturnedNone))
      && (c.op.value == "<=" ==> r == Ok(if v <= s then ReturnedTrue else ReturnedNone))
      && (c.op.value == ">" ==> r == Ok(if v > s then ReturnedTrue else ReturnedNone))
      && (c.op.value == "<" ==> r == Ok(if v < s then ReturnedTrue else ReturnedNone))
      && (c.op.value == "!=" ==> r == Ok(if v != s then ReturnedTrue else ReturnedNone))
      && (!IsKnownOp(c.op.value) ==> r == Fail(InvalidOp(c.op.value)))
  {
  }

  /** A window that wraps past midnight is the complement of the closed
      daytime interval between its end and its start. */
  lemma WrappingWindowIsComplement(now: int, from: int, to: int)
    requires from > to
    ensures IsTimeWithinRange(now, from, to) <==> !(to <= now <= from)
  {
  }

  /** A window and the window with its ends swapped never both hold, and
      together they miss only their two end points. */
  lemma SwappedWindowsPartitionTheDay(now: int, from: int, to: int)
    requires from != to
    ensures !(IsTimeWithinRange(now, from, to) && IsTimeWithinRange(now, to, from))
    ensures IsTimeWithinRange(now, from, to) || IsTimeWithinRange(now, to, from) <==> now != from && now != to
  {
  }

  function ClockAt(hour: int, minute: int): TimeOfDay
    requires 0 <= hour < 24 && 0 <= minute < 60
  {
    (hour * 60 + minute) * MicrosPerMinute
  }

  /** A 22:00 to 06:00 window holds at 23:30 and 02:00 but not at noon. */
  lemma OvernightWindowExample(value: real)
    ensures var night := Condition(Some(Clock(22, 0)), Some(Clock(6, 0)), None, None, None, None);
      && EvalCondition(value, night, ClockAt(23, 30)) == Ok(ReturnedTrue)
      && EvalCondition(value, night, ClockAt(2, 0)) == Ok(ReturnedTrue)
      && EvalCondition(value, night, ClockAt(12, 0)) == Ok(ReturnedFalse)
  {
  }
}
