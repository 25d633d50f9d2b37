/** The status report of report.py (class Report): every sensor payload
    updates, in place, the report rules configured for the reporting node,
    and the report body lists, node by node, the last value or the known
    states of each rule.

    The configured nodes and their rules are kept as association lists in
    dict iteration order; the configuration tables a value or a state is
    mapped through are `tables`, and the node-id to node-name table is
    `nodeMap`. */
module Report {
  import opened Wire

  /** What _GetValue yields: the entry of a configuration table, or the
      payload text read as a number. */
  datatype ReportValue = Label(text: string) | Number(x: real)

  /** One rule of report.node.<name>; `states` and `valueData` are the two
      fields Update writes into it. */
  datatype ReportRule = ReportRule(
    labelText: string,
    value: string,                                  // the payload key holding the value
    unit: string,
    state: Option<string>,                          // the payload key holding the state, if any
    states: Option<seq<(ReportValue, string)>>,     // value -> state, in insertion order
    valueData: Option<ReportValue>)

  type ReportNodes = seq<(string, seq<ReportRule>)>

  /** _GetValue: the first value of the rule's field, mapped through the
      configuration table of the same name when there is one, and read as a
      number otherwise. */
  function GetValue(tables: map<string, Table>, rule: ReportRule, data: Query): Result<ReportValue>
  {
    if rule.value !in data then Fail(MissingKey(rule.value))
    else
      var valueData := First(data, rule.value);
      if rule.value in tables then
        match Lookup(tables[rule.value], valueData)
        case Some(v) => Ok(Label(v))
        case None => Fail(MissingKey(valueData))
      else
        match ParseReal(valueData)
        case Some(x) => Ok(Number(x))
        case None => Fail(BadNumber(valueData))
  }

  /** A value field is mapped through the configuration table of its name
      when there is one, and read as a decimal number otherwise; a missing
      field or table entry, or text that is not a number, raises. */
  lemma GetValueMeaning(tables: map<string, Table>, rule: ReportRule, data: Query)
    ensures rule.value !in data ==> GetValue(tables, rule, data) == Fail(MissingKey(rule.value))
    ensures rule.value in data && rule.value in tables ==>
              (GetValue(tables, rule, data).Ok? <==> Lookup(tables[rule.value], First(data, rule.value)).Some?)
    ensures rule.value in data && rule.value in tables && GetValue(tables, rule, data).Ok? ==>
              GetValue(tables, rule, data).value == Label(Lookup(tables[rule.value], First(data, rule.value)).value)
    ensures rule.value in data && rule.value !in tables ==>
              (GetValue(tables, rule, data).Ok? <==> ParseReal(First(data, rule.value)).Some?)
    ensures rule.value in data && rule.value !in tables && GetValue(tables, rule, data).Ok? ==>
              GetValue(tables, rule, data).value == Number(ParseReal(First(data, rule.value)).value)
  {
  }

  /** _GetState: the first value of the rule's state field, mapped through
      the configuration table of the same name when there is one, and kept
      as text otherwise. */
  function GetState(tables: map<string, Table>, stateKey: string, data: Query): Result<string>
    requires stateKey in data
  {
    var stateData := First(data, stateKey);
    if stateKey in tables then
      match Lookup(tables[stateKey], stateData)
      case Some(s) => Ok(s)
      case None => Fail(MissingKey(stateData))
    else Ok(stateData)
  }

  /** A state field is mapped through the configuration table of its name
      when there is one, and kept as text otherwise. */
  lemma GetStateMeaning(tables: map<string, Table>, stateKey: string, data: Query)
    requires stateKey in data
    ensures stateKey !in tables ==> GetState(tables, stateKey, data) == Ok(First(data, stateKey))
    ensures stateKey in tables ==> (GetState(tables, stateKey, data).Ok? <==> Lookup(tables[stateKey], First(data, stateKey)).Some?)
    ensures stateKey in tables && GetState(tables, stateKey, data).Ok? ==> Some(GetState(tables, stateKey, data).value) == Lookup(tables[stateKey], First(data, stateKey))
  {
  }

  /** states[k] = v, with the dict kept as a list: an existing key keeps
      its place and a new key goes last. Python 2 iterates the dict in hash
      order instead, which this list does not reproduce. */
  function SetState(states: seq<(ReportValue, string)>, k: ReportValue, v: string): (r: seq<(ReportValue, string)>)
    ensures |r| == |states| || |r| == |states| + 1
    ensures (exists i :: 0 <= i < |states| && states[i].0 == k) ==> |r| == |states|
  {
    if states == [] then [(k, v)]
    else if states[0].0 == k then [(k, v)] + states[1..]
    else [states[0]] + SetState(states[1..], k, v)
  }

  function StateOf(states: seq<(ReportValue, string)>, k: ReportValue): Option<string> {
    if states == [] then None else if states[0].0 == k then Some(states[0].1) else StateOf(states[1..], k)
  }

  /** Recording a state makes it the state of its value and leaves the state
      of every other value as it was. */
  lemma {:induction false} SetStateRecords(states: seq<(ReportValue, string)>, k: ReportValue, v: string, other: ReportValue)
    ensures StateOf(SetState(states, k, v), k) == Some(v)
    ensures other != k ==> StateOf(SetState(states, k, v), other) == StateOf(states, other)
  {
    if states != [] && states[0].0 != k {
      SetStateRecords(states[1..], k, v, other);
    }
  }

  /** The rule after Update looked at it, and the error that ended Update
      there, if any. */
  datatype RuleOutcome = RuleOutcome(rule: ReportRule, error: Option<Error>)

  /** The body of Update's loop for one rule. A rule whose state field is in
      the payload records value -> state, creating `states` first (so a
      failing lookup still leaves an empty `states` behind); the state is
      looked up before the value, as the assignment evaluates its right-hand
      side first. Any other rule gets `valueData`. */
  function UpdateRule(tables: map<string, Table>, rule: ReportRule, data: Query): (o: RuleOutcome)
    ensures o.rule.labelText == rule.labelText && o.rule.value == rule.value
    ensures o.rule.unit == rule.unit && o.rule.state == rule.state
  {
    if rule.state.Some? && rule.state.value in data then
      var states := if rule.states.Some? then rule.states.value else [];
      var created := rule.(states := Some(states));
      match GetState(tables, rule.state.value, data)
      case Fail(e) => RuleOutcome(created, Some(e))
      case Ok(s) =>
        match GetValue(tables, rule, data)
        case Fail(e) => RuleOutcome(created, Some(e))
        case Ok(v) => RuleOutcome(rule.(states := Some(SetState(states, v, s))), None)
    else
      match GetValue(tables, rule, data)
      case Fail(e) => RuleOutcome(rule, Some(e))
      case Ok(v) => RuleOutcome(rule.(valueData := Some(v)), None)
  }

  /** What one rule's update means: a rule whose state field is present ends
      up with the new state recorded for the new value and every other
      recorded state kept; any other rule ends up with the new value in
      `valueData` and its `states` untouched. */
  lemma UpdateRuleMeaning(tables: map<string, Table>, rule: ReportRule, data: Query, other: ReportValue)
    ensures var o := UpdateRule(tables, rule, data);
      && (rule.state.Some? && rule.state.value in data && o.error.None? ==>
            var v := GetValue(tables, rule, data).value;
            var old_states := if rule.states.Some? then rule.states.value else [];
            && o.rule.states.Some?
            && StateOf(o.rule.states.value, v) == Some(GetState(tables, rule.state.value, data).value)
            && (other != v ==> StateOf(o.rule.states.value, other) == StateOf(old_states, other))
            && o.rule.valueData == rule.valueData)
      && (!(rule.state.Some? && rule.state.value in data) ==>
            o.rule.states == rule.states
            && (o.error.None? <==> GetValue(tables, rule, data).Ok?)
            && (o.error.None? ==> o.rule.valueData == Some(GetValue(tables, rule, data).value)))
  {
    if rule.state.Some? && rule.state.value in data && UpdateRule(tables, rule, data).error.None? {
      var states := if rule.states.Some? then rule.states.value else [];
      SetStateRecords(states, GetValue(tables, rule, data).value, GetState(tables, rule.state.value, data).value, other);
    }
  }

  /** Update's loop over one node's rules: rules are updated in order, and
      the first rule whose update raises ends the loop, leaving the later
      rules untouched. */
  function UpdateRules(tables: map<string, Table>, rules: seq<ReportRule>, data: Query): (o: (seq<ReportRule>, Option<Error>))
    ensures |o.0| == |rules|
  {
    if rules == [] then ([], None)
    else
      var first := UpdateRule(tables, rules[0], data);
      if first.error.Some? then ([first.rule] + rules[1..], first.error)
      else
        var rest := UpdateRules(tables, rules[1..], data);
        ([first.rule] + rest.0, rest.1)
  }

  /** Every rule up to and including the first one that raises is updated,
      and the rules after it are left as they were. */
  lemma UpdateRulesUpTo(tables: map<string, Table>, rules: seq<ReportRule>, data: Query, i: nat)
    requires i < |rules|
    requires forall j :: 0 <= j < i ==> UpdateRule(tables, rules[j], data).error.None?
    ensures UpdateRules(tables, rules, data).0[i] == UpdateRule(tables, rules[i], data).rule
    ensures UpdateRule(tables, rules[i], data).error.Some? ==>
              UpdateRules(tables, rules, data).1 == UpdateRule(tables, rules[i], data).error
              && UpdateRules(tables, rules, data).0[i + 1..] == rules[i + 1..]
  {
    UpdatedAt(tables, rules, data, i);
    if UpdateRule(tables, rules[i], data).error.Some? {
      StoppedAt(tables, rules, data, i);
    }
  }

  lemma {:induction false} UpdatedAt(tables: map<string, Table>, rules: seq<ReportRule>, data: Query, i: nat)
    requires i < |rules|
    requires forall j :: 0 <= j < i ==> UpdateRule(tables, rules[j], data).error.None?
    ensures UpdateRules(tables, rules, data).0[i] == UpdateRule(tables, rules[i], data).rule
  {
    if i > 0 {
      var tail := rules[1..];
      forall j | 0 <= j < i - 1
        ensures UpdateRule(tables, tail[j], data).error.None?
      {
        assert tail[j] == rules[j + 1];
      }
      UpdatedAt(tables, tail, data, i - 1);
    }
  }

  lemma {:induction false} StoppedAt(tables: map<string, Table>, rules: seq<ReportRule>, data: Query, i: nat)
    requires i < |rules|
    requires forall j :: 0 <= j < i ==> UpdateRule(tables, rules[j], data).error.None?
    requires UpdateRule(tables, rules[i], data).error.Some?
    ensures UpdateRules(tables, rules, data).1 == UpdateRule(tables, rules[i], data).error
    ensures UpdateRules(tables, rules, data).0[i + 1..] == rules[i + 1..]
  {
    if i > 0 {
      var tail := rules[1..];
      forall j | 0 <= j < i - 1
        ensures UpdateRule(tables, tail[j], data).error.None?
      {
        assert tail[j] == rules[j + 1];
      }
      StoppedAt(tables, tail, data, i - 1);
      assert rules[i + 1..] == tail[i..];
    }
  }

  /** Update's loop over a node's rules raises exactly when one of them does. */
  lemma {:induction false} UpdateRulesRaises(tables: map<string, Table>, rules: seq<ReportRule>, data: Query)
    ensures UpdateRules(tables, rules, data).1.None? <==>
              forall i :: 0 <= i < |rules| ==> UpdateRule(tables, rules[i], data).error.None?
  {
    if rules != [] {
      UpdateRulesRaises(tables, rules[1..], data);
      assert forall i :: 1 <= i < |rules| ==> rules[1..][i - 1] == rules[i];
    }
  }

  /** The outcome of the loop over the rules after `done` went through
      it, as the outcome of the rest prefixed by them. */
  function Spliced(done: seq<ReportRule>, rest: (seq<ReportRule>, Option<Error>)): (seq<ReportRule>, Option<Error>) {
    (done + rest.0, rest.1)
  }

  lemma UpdateRulesStep(tables: map<string, Table>, rules: seq<ReportRule>, k: nat, data: Query)
    requires k < |rules|
    ensures var first := UpdateRule(tables, rules[k], data);
      UpdateRules(tables, rules[k..], data) ==
        if first.error.Some? then ([first.rule] + rules[k + 1..], first.error)
        else Spliced([first.rule], UpdateRules(tables, rules[k + 1..], data))
  {
    assert rules[k..][0] == rules[k] && rules[k..][1..] == rules[k + 1..];
  }

  lemma SplicedStep(current: seq<ReportRule>, k: nat, r: ReportRule, rest: (seq<ReportRule>, Option<Error>))
    requires k < |current|
    ensures Spliced(current[..k], Spliced([r], rest)) == Spliced(current[k := r][..k + 1], rest)
    ensures current[..k] + ([r] + current[k + 1..]) == current[k := r]
  {
    assert current[k := r][..k + 1] == current[..k] + [r];
    assert current[..k] + ([r] + rest.0) == (current[..k] + [r]) + rest.0;
  }

  /** One turn of Update's loop keeps its invariant. */
  lemma UpdateRulesLoopStep(tables: map<string, Table>, rules: seq<ReportRule>, data: Query, current: seq<ReportRule>, k: nat)
    requires k < |rules| == |current| && current[k..] == rules[k..]
    requires UpdateRules(tables, rules, data) == Spliced(current[..k], UpdateRules(tables, rules[k..], data))
    ensures var o := UpdateRule(tables, current[k], data);
      && (o.error.None? ==>
            && current[k := o.rule][k + 1..] == rules[k + 1..]
            && UpdateRules(tables, rules, data) == Spliced(current[k := o.rule][..k + 1], UpdateRules(tables, rules[k + 1..], data)))
      && (o.error.Some? ==> UpdateRules(tables, rules, data) == (current[k := o.rule], o.error))
  {
    UpdateRulesStep(tables, rules, k, data);
    assert current[k] == rules[k] && current[k + 1..] == rules[k + 1..];
    var o := UpdateRule(tables, current[k], data);
    SplicedStep(current, k, o.rule, UpdateRules(tables, rules[k + 1..], data));
  }

  /** The position of a node's rule list in the report configuration. */
  function FindNode(nodes: ReportNodes, name: string): (r: Option<nat>)
    ensures r.Some? ==> r.value < |nodes| && nodes[r.value].0 == name
    ensures r.None? ==> forall i :: 0 <= i < |nodes| ==> nodes[i].0 != name
    ensures r.Some? ==> forall j :: 0 <= j < r.value ==> nodes[j].0 != name
  {
    if nodes == [] then None
    else if nodes[0].0 == name then Some(0)
    else match FindNode(nodes[1..], name)
      case Some(i) => Some(i + 1)
      case None => None
  }

  /** Update as a whole: payloads without a node are ignored; otherwise the
      node id must be configured and its name must have report rules. */
  function UpdateNodes(nodeMap: Table, tables: map<string, Table>, nodes: ReportNodes, data: Query): (o: (ReportNodes, Option<Error>))
    ensures |o.0| == |nodes| && forall i :: 0 <= i < |nodes| ==> o.0[i].0 == nodes[i].0
    ensures "node" !in data ==> o == (nodes, None)
    // an unconfigured node id raises its KeyError and changes nothing
    ensures "node" in data && Lookup(nodeMap, First(data, "node")).None? ==>
              o == (nodes, Some(MissingKey(First(data, "node"))))
    // so does a node name without report rules
    ensures "node" in data && Lookup(nodeMap, First(data, "node")).Some? ==>
              var name := Lookup(nodeMap, First(data, "node")).value;
              && ((forall i :: 0 <= i < |nodes| ==> nodes[i].0 != name) ==> o == (nodes, Some(MissingKey(name))))
              // otherwise only that node's rules change, to what the rule loop makes of them
              && ((exists i :: 0 <= i < |nodes| && nodes[i].0 == name) ==>
                    exists i :: 0 <= i < |nodes| && nodes[i].0 == name && (forall j :: 0 <= j < i ==> nodes[j].0 != name)
                                && o.1 == UpdateRules(tables, nodes[i].1, data).1
                                && o.0 == nodes[i := (name, UpdateRules(tables, nodes[i].1, data).0)])
  {
    if "node" !in data then (nodes, None)
    else
      var nodeID := First(data, "node");
      match Lookup(nodeMap, nodeID)
      case None => (nodes, Some(MissingKey(nodeID)))
      case Some(name) =>
        match FindNode(nodes, name)
        case None => (nodes, Some(MissingKey(name)))
        case Some(i) =>
          var (rules, error) := UpdateRules(tables, nodes[i].1, data);
          (nodes[i := (name, rules)], error)
  }

  /** One line of the report body. */
  datatype Line =
    | NodeHeader(name: string)
    | ValueLine(labelText: string, value: ReportValue, unit: string)
    | StateLine(key: ReportValue, state: string)
    | DividerLine(text: string)

  /** The lines of one rule: its value when it has one and no states, or one
      line per recorded state, or nothing. */
  function RuleLines(rule: ReportRule): seq<Line> {
    if rule.states.None? && rule.valueData.Some? then [ValueLine(rule.labelText, rule.valueData.value, rule.unit)]
    else if rule.states.Some? then StateLines(rule.states.value)
    else []
  }

  function StateLines(states: seq<(ReportValue, string)>): (r: seq<Line>)
    ensures |r| == |states|
    ensures forall i :: 0 <= i < |states| ==> r[i] == StateLine(states[i].0, states[i].1)
  {
    if states == [] then [] else StateLines(states[..|states| - 1]) + [StateLine(states[|states| - 1].0, states[|states| - 1].1)]
  }

  function RulesLines(rules: seq<ReportRule>): seq<Line> {
    if rules == [] then [] else RulesLines(rules[..|rules| - 1]) + RuleLines(rules[|rules| - 1])
  }

  function NodeLines(name: string, rules: seq<ReportRule>, divider: string): seq<Line> {
    [NodeHeader(name)] + RulesLines(rules) + [DividerLine(divider)]
  }

  function BodyLines(nodes: ReportNodes, divider: string): seq<Line> {
    if nodes == [] then []
    else BodyLines(nodes[..|nodes| - 1], divider) + NodeLines(nodes[|nodes| - 1].0, nodes[|nodes| - 1].1, divider)
  }

  /** Every line of a rule shows up in the lines of any rule list holding it. */
  lemma {:induction false} RuleLinesInRulesLines(rules: seq<ReportRule>, k: nat, x: Line)
    requires k < |rules| && x in RuleLines(rules[k])
    ensures x in RulesLines(rules)
  {
    if k < |rules| - 1 {
      RuleLinesInRulesLines(rules[..|rules| - 1], k, x);
    }
  }

  /** Every line of a node shows up in the body. */
  lemma {:induction false} NodeLinesInBody(nodes: ReportNodes, divider: string, i: nat, x: Line)
    requires i < |nodes| && x in NodeLines(nodes[i].0, nodes[i].1, divider)
    ensures x in BodyLines(nodes, divider)
  {
    if i < |nodes| - 1 {
      NodeLinesInBody(nodes[..|nodes| - 1], divider, i, x);
    }
  }

  /** The body names every configured node in a header, in configuration
      order, and nothing else in a header. */
  lemma {:induction false} BodyHeaders(nodes: ReportNodes, divider: string)
    ensures forall i :: 0 <= i < |nodes| ==> NodeHeader(nodes[i].0) in BodyLines(nodes, divider)
    ensures forall n :: NodeHeader(n) in BodyLines(nodes, divider) ==> exists i :: 0 <= i < |nodes| && nodes[i].0 == n
  {
    forall i | 0 <= i < |nodes|
      ensures NodeHeader(nodes[i].0) in BodyLines(nodes, divider)
    {
      NodeLinesInBody(nodes, divider, i, NodeHeader(nodes[i].0));
    }
    if nodes != [] {
      var init := nodes[..|nodes| - 1];
      BodyHeaders(init, divider);
      forall n | NodeHeader(n) in BodyLines(nodes, divider)
        ensures exists i :: 0 <= i < |nodes| && nodes[i].0 == n
      {
        if NodeHeader(n) in BodyLines(init, divider) {
          var i :| 0 <= i < |init| && init[i].0 == n;
          assert nodes[i].0 == n;
        } else {
          RulesHaveNoHeader(nodes[|nodes| - 1].1, n);
          assert nodes[|nodes| - 1].0 == n;
        }
      }
    }
  }

  lemma {:induction false} RulesHaveNoHeader(rules: seq<ReportRule>, n: string)
    ensures NodeHeader(n) !in RulesLines(rules)
  {
    if rules != [] {
      RulesHaveNoHeader(rules[..|rules| - 1], n);
    }
  }

  /** After an Update that did not raise, a rule of the reporting node that
      is not recording a state is reported with the value just received. */
  lemma UpdatedValueIsReported(nodeMap: Table, tables: map<string, Table>, nodes: ReportNodes,
                               data: Query, divider: string, i: nat, k: nat)
    requires "node" in data && Lookup(nodeMap, First(data, "node")).Some?
    requires FindNode(nodes, Lookup(nodeMap, First(data, "node")).value) == Some(i)
    requires k < |nodes[i].1|
    requires var rule := nodes[i].1[k]; rule.states.None? && !(rule.state.Some? && rule.state.value in data)
    requires UpdateNodes(nodeMap, tables, nodes, data).1.None?
    ensures var rule := nodes[i].1[k];
      GetValue(tables, rule, data).Ok? &&
      ValueLine(rule.labelText, GetValue(tables, rule, data).value, rule.unit) in BodyLines(UpdateNodes(nodeMap, tables, nodes, data).0, divider)
  {
    var rule := nodes[i].1[k];
    var updated := UpdateNodes(nodeMap, tables, nodes, data).0;
    var rules := UpdateRules(tables, nodes[i].1, data).0;
    assert updated[i] == (nodes[i].0, rules);
    UpdateRulesRaises(tables, nodes[i].1, data);
    UpdateRulesUpTo(tables, nodes[i].1, data, k);
    assert rules[k] == UpdateRule(tables, rule, data).rule;
    var x := ValueLine(rule.labelText, GetValue(tables, rule, data).value, rule.unit);
    assert RuleLines(rules[k]) == [x];
    RuleLinesInRulesLines(rules, k, x);
    NodeLinesInBody(updated, divider, i, x);
  }

  lemma RulesLinesSnoc(rules: seq<ReportRule>, j: nat)
    requires j < |rules|
    ensures RulesLines(rules[..j + 1]) == RulesLines(rules[..j]) + RuleLines(rules[j])
  {
    assert rules[..j + 1][..j] == rules[..j];
  }

  lemma AppendRule(pre: seq<Line>, rules: seq<ReportRule>, j: nat, showReal: real -> string)
    requires j < |rules|
    ensures Render(pre + RulesLines(rules[..j + 1]), showReal)
            == Render(pre + RulesLines(rules[..j]), showReal) + Render(RuleLines(rules[j]), showReal)
  {
    RulesLinesSnoc(rules, j);
    var a, b := pre + RulesLines(rules[..j]), RuleLines(rules[j]);
    assert pre + RulesLines(rules[..j + 1]) == a + b;
    RenderAppend(a, b, showReal);
  }

  /** The text of one line; `showReal` is Python's str() of a float. */
  function LineText(line: Line, showReal: real -> string): string {
    match line
    case NodeHeader(name) => "Node: " + name + "\r\n"
    case ValueLine(labelText, value, unit) => labelText + ": " + Show(value, showReal) + " " + unit + "\r\n"
    case StateLine(key, state) => Show(key, showReal) + ": " + state + "\r\n"
    case DividerLine(text) => text + "\r\n"
  }

  function Show(v: ReportValue, showReal: real -> string): string {
    match v
    case Label(text) => text
    case Number(x) => showReal(x)
  }

  /** "".join of the lines' texts. */
  function Render(lines: seq<Line>, showReal: real -> string): string {
    if lines == [] then "" else Render(lines[..|lines| - 1], showReal) + LineText(lines[|lines| - 1], showReal)
  }

  lemma RenderSnoc(lines: seq<Line>, l: Line, showReal: real -> string)
    ensures Render(lines + [l], showReal) == Render(lines, showReal) + LineText(l, showReal)
  {
    assert (lines + [l])[..|lines|] == lines;
  }

  lemma {:induction false} RenderAppend(a: seq<Line>, b: seq<Line>, showReal: real -> string)
    ensures Render(a + b, showReal) == Render(a, showReal) + Render(b, showReal)
  {
    if b != [] {
      var init, l := b[..|b| - 1], b[|b| - 1];
      assert b == init + [l];
      assert a + b == (a + init) + [l];
      RenderAppend(a, init, showReal);
      RenderSnoc(a + init, l, showReal);
      RenderSnoc(init, l, showReal);
    } else {
      assert a + b == a;
    }
  }

  class Report {
    const nodeMap: Table                  // cfg["node"]: node id -> node name
    const tables: map<string, Table>      // the configuration tables values and states are mapped through
    const title: string                   // cfg["report"]["title"]
    const divider: string                 // cfg["report"]["divider"]
    const showReal: real -> string
    var nodes: ReportNodes                // cfg["report"]["node"], updated in place

    constructor (nodeMap: Table, tables: map<string, Table>, title: string, divider: string,
                 showReal: real -> string, nodes: ReportNodes)
      ensures this.nodeMap == nodeMap && this.tables == tables && this.title == title
      ensures this.divider == divider && this.showReal == showReal && this.nodes == nodes
    {
      this.nodeMap := nodeMap;
      this.tables := tables;
      this.title := title;
      this.divider := divider;
      this.showReal := showReal;
      this.nodes := nodes;
    }

    /** Update: the rules of the reporting node are updated in place, one
      after the other, and the first error raises out of the loop. */
    method Update(data: Query) returns (raised: Option<Error>)
      modifies this
      ensures (nodes, raised) == UpdateNodes(nodeMap, tables, old(nodes), data)
    {
      if "node" !in data {
        return None;
      }
      var nodeID := First(data, "node");
      var name := Lookup(nodeMap, nodeID);
      if name.None? {
        return Some(MissingKey(nodeID));
      }
      var index := FindNode(nodes, name.value);
      if index.None? {
        return Some(MissingKey(name.value));
      }
      var i := index.value;
      var rules;
      rules, raised := UpdateRuleList(nodes[i].1, data);
      nodes := nodes[i := (name.value, rules)];
    }

    /** The loop of Update over the reporting node's rules. */
    method UpdateRuleList(rules: seq<ReportRule>, data: Query) returns (current: seq<ReportRule>, raised: Option<Error>)
      ensures (current, raised) == UpdateRules(tables, rules, data)
    {
      current := rules;
      var k := 0;
      raised := None;
      assert current[..0] + UpdateRules(tables, rules, data).0 == UpdateRules(tables, rules, data).0;
      while k < |rules| && raised.None?
        invariant 0 <= k <= |rules| && |current| == |rules|
        invariant raised.None? ==> current[k..] == rules[k..]
        invariant raised.None? ==> UpdateRules(tables, rules, data) == Spliced(current[..k], UpdateRules(tables, rules[k..], data))
        invariant raised.Some? ==> UpdateRules(tables, rules, data) == (current, raised)
      {
        var o := UpdateRule(tables, current[k], data);
        UpdateRulesLoopStep(tables, rules, data, current, k);
        current := current[k := o.rule];
        raised := o.error;
        k := k + 1;
      }
      if raised.None? {
        assert current[..k] == current && rules[k..] == [];
        assert UpdateRules(tables, rules[k..], data) == ([], None);
        assert current + [] == current;
      }
    }

    /** The text of one rule's lines: its value line, or one line per
      recorded state. */
    method RuleText(rule: ReportRule) returns (text: string)
      ensures text == Render(RuleLines(rule), showReal)
    {
      text := "";
      if rule.states.None? && rule.valueData.Some? {
        text := LineText(ValueLine(rule.labelText, rule.valueData.value, rule.unit), showReal);
        assert Render([ValueLine(rule.labelText, rule.valueData.value, rule.unit)], showReal) == "" + text;
      } else if rule.states.Some? {
        var states := rule.states.value;
        var s := 0;
        while s < |states|
          invariant 0 <= s <= |states|
          invariant text == Render(StateLines(states[..s]), showReal)
        {
          assert states[..s + 1][..s] == states[..s];
          text := text + LineText(StateLine(states[s].0, states[s].1), showReal);
          s := s + 1;
        }
        assert states[..s] == states;
      }
    }

    /** The text of one node: its header, its rules' lines and the divider. */
    method NodeText(name: string, rules: seq<ReportRule>) returns (text: string)
      ensures text == Render(NodeLines(name, rules, divider), showReal)
    {
      text := LineText(NodeHeader(name), showReal);
      assert text == Render([NodeHeader(name)] + RulesLines(rules[..0]), showReal);
      var j := 0;
      while j < |rules|
        invariant 0 <= j <= |rules|
        invariant text == Render([NodeHeader(name)] + RulesLines(rules[..j]), showReal)
      {
        var ruleText := RuleText(rules[j]);
        AppendRule([NodeHeader(name)], rules, j, showReal);
        text := text + ruleText;
        j := j + 1;
      }
      assert rules[..j] == rules;
      RenderAppend([NodeHeader(name)] + RulesLines(rules), [DividerLine(divider)], showReal);
      text := text + LineText(DividerLine(divider), showReal);
    }

    /** GetBody: for each configured node, a header line, the lines of its
      rules and the divider, joined into one text. */
    method GetBody() returns (body: string)
      ensures body == Render(BodyLines(nodes, divider), showReal)
    {
      body := "";
      var i := 0;
      while i < |nodes|
        invariant 0 <= i <= |nodes|
        invariant body == Render(BodyLines(nodes[..i], divider), showReal)
      {
        var nodeText := NodeText(nodes[i].0, nodes[i].1);
        assert nodes[..i + 1][..i] == nodes[..i];
        RenderAppend(BodyLines(nodes[..i], divider), NodeLines(nodes[i].0, nodes[i].1, divider), showReal);
        body := body + nodeText;
        i := i + 1;
      }
      assert nodes[..i] == nodes;
    }
  }
}
