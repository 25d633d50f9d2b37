/** The command dispatcher of send.py (class Command): every outgoing command
    carries a fresh token, a clock counts the token's time down, an inbound
    acknowledgement sets its status, and the sender polls that status,
    retrying a bounded number of times and deleting each token afterwards.

    Time is counted in centiseconds. The clock thread (_ElapseTime) and the
    inbound acknowledgement callback are modelled as steps of the
    environment that happen during each poll of the sender's wait loop. */
module Send {
  import opened Wire

  /** Command.STATUS_TIMEOUT, STATUS_PENDING, STATUS_ACK, STATUS_NACK. */
  datatype Status = Timeout | Pending | Ack | Nack

  function Code(s: Status): int {
    match s
    case Timeout => -1
    case Pending => 0
    case Ack => 1
    case Nack => 2
  }

  /** The stateToStateStr table. */
  function StatusToStr(s: Status): string {
    match s
    case Timeout => "timeout"
    case Pending => ""
    case Ack => "ack"
    case Nack => "nack"
  }

  /** The stateStrToState table. */
  function StrToStatus(str: string): Option<Status> {
    if str == "timeout" then Some(Timeout)
    else if str == "" then Some(Pending)
    else if str == "ack" then Some(Ack)
    else if str == "nack" then Some(Nack)
    else None
  }

  /** The two status tables are inverse to each other over the four statuses. */
  lemma StatusTablesAreInverse(s: Status, str: string)
    ensures StrToStatus(StatusToStr(s)) == Some(s)
    ensures StrToStatus(str) == Some(s) <==> StatusToStr(s) == str
  {
  }

  const TimerWait: int := 1                  // TIMER_WAIT_TIME_SEC = .01
  const MaxSendCommandTimeout: int := 50     // MAX_SEND_COMMAND_TIMEOUT_SEC = .5
  const ElapseFloor: int := -100             // the clock stops counting below -1.0
  const MaxSendCommandRetries: nat := 2      // total attempts, not retries after the first

  /** A token's [remainingSec, statusStr] entry. */
  datatype TokenState = TokenState(remaining: int, status: string)

  type TokenTable = map<string, TokenState>

  /** The lowest remaining time an entry can reach. */
  predicate AboveFloor(e: TokenState) {
    e.remaining >= ElapseFloor - TimerWait
  }

  function ElapseEntry(e: TokenState): TokenState {
    if e.remaining >= ElapseFloor then e.(remaining := e.remaining - TimerWait) else e
  }

  /** The table after one pass of the clock. */
  function Elapsed(t: TokenTable): (r: TokenTable)
    ensures r.Keys == t.Keys
  {
    map tok | tok in t :: ElapseEntry(t[tok])
  }

  /** A pass of the clock changes only remaining times, counts every entry
      at or above -1.0 down by one tick, and never takes one below the floor. */
  lemma ElapsedTouchesOnlyTime(t: TokenTable, tok: string)
    requires tok in t
    ensures Elapsed(t)[tok].status == t[tok].status
    ensures t[tok].remaining >= ElapseFloor ==> Elapsed(t)[tok].remaining == t[tok].remaining - TimerWait
    ensures t[tok].remaining < ElapseFloor ==> Elapsed(t)[tok] == t[tok]
    ensures AboveFloor(t[tok]) ==> AboveFloor(Elapsed(t)[tok])
  {
  }

  /** What acknowledgement delivery does to the table. */
  function WithStatus(t: TokenTable, tok: string, tx: string): (r: TokenTable)
    ensures r.Keys == t.Keys
    ensures forall k :: k in t ==> r[k].remaining == t[k].remaining
    ensures forall k :: k in t && k != tok ==> r[k] == t[k]
    ensures tok in t ==> r[tok].status == tx
    ensures tok !in t ==> r == t
  {
    if tok in t then t[tok := t[tok].(status := tx)] else t
  }

  /** _GetCommandStatus on one entry: a countdown below zero is a timeout
      whatever the status string says; otherwise the string is looked up in
      stateStrToState, which raises for a string it does not know. */
  function StatusOf(e: TokenState): (r: Result<Status>)
    ensures e.remaining < 0 ==> r == Ok(Timeout)
    ensures e.remaining >= 0 ==> (r.Ok? <==> e.status in {"", "ack", "nack", "timeout"})
    ensures e.remaining >= 0 && r.Ok? ==> StatusToStr(r.value) == e.status
  {
    if e.remaining < 0 then Ok(Timeout)
    else match StrToStatus(e.status)
      case Some(s) => Ok(s)
      case None => Fail(UnknownStatus(e.status))
  }

  /** _AppendToken */
  function AppendToken(cmd: string, token: string): (r: string)
    ensures cmd <= r && r[|cmd|..] == "&tok=" + token
  {
    cmd + "&tok=" + token
  }

  /** The same command sent with two different tokens gives two different payloads. */
  lemma AppendTokenDistinguishes(cmd: string, t1: string, t2: string)
    requires t1 != t2
    ensures AppendToken(cmd, t1) != AppendToken(cmd, t2)
  {
    var a, b := AppendToken(cmd, t1), AppendToken(cmd, t2);
    if |t1| != |t2| {
      assert |a| != |b|;
    } else {
      var i :| 0 <= i < |t1| && t1[i] != t2[i];
      assert a[|cmd| + 5 + i] != b[|cmd| + 5 + i];
    }
  }

  /** _GetKeyByValue: the first key, in iteration order, whose value matches. */
  function GetKeyByValue(tb: Table, value: string): (r: Option<string>)
    ensures r.None? <==> forall i :: 0 <= i < |tb| ==> tb[i].1 != value
    ensures r.Some? ==> exists i :: 0 <= i < |tb| && tb[i] == (r.value, value)
                                    && forall j :: 0 <= j < i ==> tb[j].1 != value
  {
    if tb == [] then None
    else if tb[0].1 == value then Some(tb[0].0)
    else GetKeyByValue(tb[1..], value)
  }

  /** Reverse lookup is undone by forward lookup: the key found for a value
      maps back to that value. */
  lemma {:induction false} KeyByValueRoundTrip(tb: Table, value: string)
    requires DistinctKeys(tb)
    requires GetKeyByValue(tb, value).Some?
    ensures Lookup(tb, GetKeyByValue(tb, value).value) == Some(value)
  {
    if tb[0].1 != value {
      var k := GetKeyByValue(tb[1..], value).value;
      assert DistinctKeys(tb[1..]) by {
        forall i, j | 0 <= i < j < |tb[1..]| ensures tb[1..][i].0 != tb[1..][j].0 {
          assert tb[1..][i] == tb[i + 1] && tb[1..][j] == tb[j + 1];
        }
      }
      KeyByValueRoundTrip(tb[1..], value);
      var i :| 0 <= i < |tb[1..]| && tb[1..][i] == (k, value);
      assert tb[0].0 != tb[i + 1].0;
    }
  }

  /** What _Resolve does to one field: only a key that names a
      configuration table is rewritten, a decimal integer is kept, and any
      other value is replaced by the key under which the table holds it. */
  function ResolveField(tables: map<string, Table>, key: string, values: seq<string>): (r: Result<seq<string>>)
    requires values != []
    // a key naming no table, or a decimal integer, is kept as it is
    ensures key !in tables || ParseInt(values[0]).Some? ==> r == Ok(values)
    // only the first value is ever rewritten
    ensures r.Ok? ==> |r.value| == |values| && r.value[1..] == values[1..]
    ensures r.Fail? ==> r.error == Unresolved(key, values[0])
  {
    if key !in tables || ParseInt(values[0]).Some? then Ok(values)
    else match GetKeyByValue(tables[key], values[0])
      case Some(k) => Ok(values[0 := k])
      case None => Fail(Unresolved(key, values[0]))
  }

  /** A symbolic value fails to resolve exactly when the table holds no
      entry with that value, and otherwise is replaced by the first key, in
      iteration order, under which the table holds it. */
  lemma SymbolicFieldMeaning(tables: map<string, Table>, key: string, values: seq<string>)
    requires values != [] && key in tables && ParseInt(values[0]).None?
    ensures var r := ResolveField(tables, key, values);
      && (r.Fail? <==> forall i :: 0 <= i < |tables[key]| ==> tables[key][i].1 != values[0])
      && (r.Ok? ==> exists i :: 0 <= i < |tables[key]| && tables[key][i] == (r.value[0], values[0])
                               && forall j :: 0 <= j < i ==> tables[key][j].1 != values[0])
  {
  }

  ghost predicate Resolvable(tables: map<string, Table>, q: Query) {
    forall key :: key in q ==> ResolveField(tables, key, q[key]).Ok?
  }

  ghost function ResolvedQuery(tables: map<string, Table>, q: Query): (r: Query)
    requires Resolvable(tables, q)
  {
    map key | key in q :: ResolveField(tables, key, q[key]).value
  }

  /** _Resolve over an already decoded command: every field is resolved in
      dict order, and the first unresolvable one raises. */
  method Resolve(tables: map<string, Table>, cmd: Query) returns (r: Result<Query>)
    ensures r.Ok? <==> Resolvable(tables, cmd)
    ensures r.Ok? ==> r.value == ResolvedQuery(tables, cmd)
    ensures r.Fail? ==> r.error.Unresolved? && r.error.key in cmd
                        && ResolveField(tables, r.error.key, cmd[r.error.key]).Fail?
  {
    var decoded := cmd;
    var todo := cmd.Keys;
    while todo != {}
      invariant todo <= cmd.Keys && decoded.Keys == cmd.Keys
      invariant forall key :: key in todo ==> decoded[key] == cmd[key]
      invariant forall key :: key in decoded && key !in todo ==> ResolveField(tables, key, cmd[key]) == Ok(decoded[key])
      decreases todo
    {
      var key :| key in todo;
      var field := ResolveField(tables, key, decoded[key]);
      if field.Fail? {
        return Fail(field.error);
      }
      decoded := decoded[key := field.value];
      todo := todo - {key};
    }
    AllFieldsResolved(tables, cmd, decoded);
    return Ok(decoded);
  }

  lemma AllFieldsResolved(tables: map<string, Table>, cmd: Query, decoded: Query)
    requires decoded.Keys == cmd.Keys
    requires forall key :: key in decoded ==> ResolveField(tables, key, cmd[key]) == Ok(decoded[key])
    ensures Resolvable(tables, cmd) && decoded == ResolvedQuery(tables, cmd)
  {
    assert decoded.Keys == ResolvedQuery(tables, cmd).Keys;
  }

  /** A symbolic field that resolves becomes a key whose table entry is the
      symbol it replaced. */
  lemma ResolvedFieldMapsBack(tables: map<string, Table>, q: Query, key: string)
    requires Resolvable(tables, q) && key in q && key in tables && DistinctKeys(tables[key])
    requires ParseInt(First(q, key)).None?
    ensures Lookup(tables[key], First(ResolvedQuery(tables, q), key)) == Some(First(q, key))
  {
    KeyByValueRoundTrip(tables[key], First(q, key));
  }

  ghost predicate Injective(f: nat -> string) {
    forall a, b :: f(a) == f(b) ==> a == b
  }

  /** What the environment does while the sender sleeps during one poll:
      an inbound (token, tx) acknowledgement may arrive, and the exit event
      may be set. */
  datatype EnvStep = EnvStep(rx: Option<(string, string)>, stop: bool)

  /** A node that never answers, and no stop request. */
  ghost predicate Silent(env: (nat, string) -> EnvStep) {
    forall p, tok :: env(p, tok) == EnvStep(None, false)
  }

  /** A node that acknowledges every command during the first poll. */
  ghost predicate AcksAtOnce(env: (nat, string) -> EnvStep) {
    forall tok :: env(0, tok) == EnvStep(Some((tok, StatusToStr(Ack))), false)
  }

  class Command {
    const tables: map<string, Table>        // the configuration tables symbols resolve against
    const tokenOf: nat -> string            // Hashids.encode with the process's salt
    const encode: Query -> string           // UrlEncode
    const decode: string -> Option<Query>   // UrlDecode; None when it raises
    var count: nat
    var tokens: TokenTable
    var exiting: bool                       // timerThreadExitEvent
    ghost var origin: map<string, nat>      // the counter value each live token was made from
    ghost var published: seq<string>        // payloads published on the serial command topic

    ghost predicate Valid()
      reads this
    {
      && Injective(tokenOf)
      && (forall tok :: tok in tokens ==> tok in origin && origin[tok] <= count && tokenOf(origin[tok]) == tok)
      && (forall tok :: tok in tokens ==> AboveFloor(tokens[tok]))
    }

    /** The constructor; `seed` is the random.randint(0, 999) start of the counter. */
    constructor (tables: map<string, Table>, tokenOf: nat -> string, encode: Query -> string,
                 decode: string -> Option<Query>, seed: nat)
      requires Injective(tokenOf) && seed <= 999
      ensures Valid()
      ensures this.tables == tables && this.tokenOf == tokenOf && this.encode == encode && this.decode == decode
      ensures count == seed && tokens == map[] && !exiting && published == []
    {
      this.tables := tables;
      this.tokenOf := tokenOf;
      this.encode := encode;
      this.decode := decode;
      count := seed;
      tokens := map[];
      exiting := false;
      origin := map[];
      published := [];
    }

    /** The resolved text of a command, when decoding and resolution succeed. */
    ghost predicate CommandResolvable(cmd: string) {
      decode(cmd).Some? && Resolvable(tables, decode(cmd).value)
    }

    ghost function CommandText(cmd: string): string
      requires CommandResolvable(cmd)
    {
      encode(ResolvedQuery(tables, decode(cmd).value))
    }

    /** The payloads of n attempts whose tokens come from counter values first, first + 1, ... */
    ghost function Payloads(text: string, first: nat, n: nat): (r: seq<string>)
      ensures |r| == n
    {
      if n == 0 then [] else Payloads(text, first, n - 1) + [AppendToken(text, tokenOf(first + n - 1))]
    }

    /** _GetToken: the counter goes up by one and the new token is
      registered with a full countdown and an empty status. */
    method GetToken() returns (token: string)
      requires Valid()
      modifies this`count, this`tokens, this`origin
      ensures Valid()
      ensures count == old(count) + 1 && token == tokenOf(count)
      ensures token !in old(tokens)
      ensures tokens == old(tokens)[token := TokenState(MaxSendCommandTimeout, StatusToStr(Pending))]
    {
      count := count + 1;
      token := tokenOf(count);
      assert forall t :: t in tokens ==> tokenOf(origin[t]) != token;
      tokens := tokens[token := TokenState(MaxSendCommandTimeout, StatusToStr(Pending))];
      origin := origin[token := count];
    }

    /** _DeleteToken */
    method DeleteToken(token: string)
      requires Valid() && token in tokens
      modifies this`tokens
      ensures Valid()
      ensures tokens == old(tokens) - {token}
    {
      tokens := tokens - {token};
    }

    /** One pass of _ElapseTime over every live token. */
    method ElapseTime()
      requires Valid()
      modifies this`tokens
      ensures Valid()
      ensures tokens == Elapsed(old(tokens))
    {
      var next := tokens;
      var todo := tokens.Keys;
      while todo != {}
        invariant todo <= tokens.Keys && next.Keys == tokens.Keys
        invariant forall tok :: tok in tokens ==> next[tok] == if tok in todo then tokens[tok] else ElapseEntry(tokens[tok])
        decreases todo
      {
        var tok :| tok in todo;
        var state := next[tok];
        if state.remaining >= ElapseFloor {
          next := next[tok := state.(remaining := state.remaining - TimerWait)];
        }
        todo := todo - {tok};
      }
      tokens := next;
    }

    /** The locked part of _SerialRxCallback: set the status string of a
      registered token; an unknown token is ignored. */
    method DeliverAck(token: string, tx: string)
      requires Valid()
      modifies this`tokens
      ensures Valid()
      ensures tokens == WithStatus(old(tokens), token, tx)
    {
      if token in tokens {
        tokens := tokens[token := tokens[token].(status := tx)];
      }
    }

    /** _SerialRxCallback: only a payload carrying both "&tok=" and "&tx="
      is decoded; a payload that then fails to decode raises Malformed, and
      one that lacks "tok" or "tx" raises KeyError, before the table is
      touched. */
    method SerialRxCallback(payload: string) returns (raised: Option<Error>)
      requires Valid()
      modifies this`tokens
      ensures Valid()
      ensures raised.Some? ==> tokens == old(tokens)
      ensures !(Contains(payload, "&tok=") && Contains(payload, "&tx=")) ==> raised.None? && tokens == old(tokens)
      ensures Contains(payload, "&tok=") && Contains(payload, "&tx=") ==>
                if decode(payload).None? then raised == Some(Malformed)
                else if "tok" !in decode(payload).value then raised == Some(MissingKey("tok"))
                else if "tx" !in decode(payload).value then raised == Some(MissingKey("tx"))
                else raised.None?
                     && tokens == WithStatus(old(tokens), First(decode(payload).value, "tok"), First(decode(payload).value, "tx"))
    {
      raised := None;
      if Contains(payload, "&tok=") && Contains(payload, "&tx=") {
        var decoded := decode(payload);
        if decoded.None? {
          return Some(Malformed);
        }
        if "tok" !in decoded.value {
          return Some(MissingKey("tok"));
        }
        if "tx" !in decoded.value {
          return Some(MissingKey("tx"));
        }
        DeliverAck(First(decoded.value, "tok"), First(decoded.value, "tx"));
      }
    }

    /** The wait loop of one attempt: sleep while the environment acts,
      then read the token's status, until it is no longer pending or the
      exit event is set. A status string the table does not know raises. */
    method AwaitStatus(token: string, env: (nat, string) -> EnvStep) returns (r: Result<Status>)
      requires Valid() && token in tokens && tokens[token].remaining >= 0 && !exiting
      modifies this`tokens, this`exiting
      ensures Valid() && token in tokens && tokens.Keys == old(tokens).Keys
      ensures r.Ok? && r.value == Pending ==> exiting
      ensures Silent(env) && old(tokens[token].status) == StatusToStr(Pending) ==> !exiting && r == Ok(Timeout)
      ensures AcksAtOnce(env) && old(tokens[token].remaining) > 0 ==> r == Ok(Ack)
    {
      var poll: nat := 0;
      r := Ok(Pending);
      while r == Ok(Pending) && !exiting
        invariant Valid() && token in tokens && tokens.Keys == old(tokens).Keys
        invariant r.Ok? && r.value == Pending ==> tokens[token].remaining >= 0
        invariant poll == 0 ==> r == Ok(Pending) && !exiting
        invariant poll > 0 ==> r == StatusOf(tokens[token])
        invariant Silent(env) && old(tokens[token].status) == StatusToStr(Pending) ==>
                    !exiting && tokens[token].status == StatusToStr(Pending)
        invariant AcksAtOnce(env) && old(tokens[token].remaining) > 0 ==> if poll == 0 then r == Ok(Pending) && !exiting && tokens[token] == old(tokens[token]) else r == Ok(Ack)
        decreases if exiting then 0 else 1, tokens[token].remaining + 1
      {
        var step := env(poll, token);
        assert Silent(env) ==> step == EnvStep(None, false);
        assert AcksAtOnce(env) && poll == 0 ==> step == EnvStep(Some((token, StatusToStr(Ack))), false);
        r := Poll(token, step);
        poll := poll + 1;
      }
    }

    /** One poll of the wait loop: while the sender sleeps, an
      acknowledgement may arrive and then either the clock makes a pass or
      the exit event is set; the token's status is read afterwards. */
    method Poll(token: string, step: EnvStep) returns (r: Result<Status>)
      requires Valid() && token in tokens
      modifies this`tokens, this`exiting
      ensures Valid() && token in tokens && tokens.Keys == old(tokens).Keys
      ensures exiting == (old(exiting) || step.stop)
      ensures var acked := if step.rx.Some? then WithStatus(old(tokens), step.rx.value.0, step.rx.value.1) else old(tokens);
        tokens == if step.stop then acked else Elapsed(acked)
      ensures r == StatusOf(tokens[token])
      ensures step.rx.None? || step.rx.value.0 != token ==> tokens[token].status == old(tokens[token].status)
      ensures step.rx.Some? && step.rx.value.0 == token ==> tokens[token].status == step.rx.value.1
      ensures step.stop ==> tokens[token].remaining == old(tokens[token].remaining)
      ensures !step.stop && old(tokens[token].remaining) >= ElapseFloor ==>
                tokens[token].remaining == old(tokens[token].remaining) - TimerWait
      ensures step == EnvStep(Some((token, StatusToStr(Ack))), false) && old(tokens[token].remaining) > 0 ==> r == Ok(Ack)
    {
      if step.rx.Some? {
        DeliverAck(step.rx.value.0, step.rx.value.1);
      }
      if step.stop {
        exiting := true;
      } else {
        ghost var acked := tokens;
        ElapseTime();
        ElapsedTouchesOnlyTime(acked, token);
      }
      r := StatusOf(tokens[token]);
      StatusTablesAreInverse(Ack, tokens[token].status);
    }

    /** One pass of _SendCommand's retry loop: issue a token, decode and
      resolve the command, publish it with the token appended, wait for the
      token's status, and delete the token whatever happened. */
    method Attempt(cmd: string, env: (nat, string) -> EnvStep) returns (r: Result<Status>)
      requires Valid() && !exiting
      modifies this`count, this`tokens, this`origin, this`exiting, this`published
      ensures Valid() && tokens.Keys == old(tokens).Keys
      ensures count == old(count) + 1
      ensures r.Ok? && r.value == Pending ==> exiting
      ensures CommandResolvable(cmd) ==> published == old(published) + [AppendToken(CommandText(cmd), tokenOf(count))]
      ensures !CommandResolvable(cmd) ==> published == old(published) && r.Fail?
      ensures CommandResolvable(cmd) && Silent(env) ==> !exiting && r == Ok(Timeout)
      ensures CommandResolvable(cmd) && AcksAtOnce(env) ==> r == Ok(Ack)
    {
      ghost var keys := tokens.Keys;
      var token := GetToken();
      assert tokens.Keys == keys + {token} && token !in keys;
      var text := Prepare(cmd);
      if text.Fail? {
        r := Fail(text.error);
      } else {
        published := published + [AppendToken(text.value, token)];
        r := AwaitStatus(token, env);
      }
      assert tokens.Keys == keys + {token};
      DeleteToken(token);
      assert tokens.Keys == keys;
    }

    /** The decoding and resolution at the start of an attempt: the text
      to publish, or the exception that ends the attempt (a payload that
      does not decode raises Malformed). */
    method Prepare(cmd: string) returns (text: Result<string>)
      ensures text.Ok? <==> CommandResolvable(cmd)
      ensures text.Ok? ==> text.value == CommandText(cmd)
      ensures decode(cmd).None? ==> text == Fail(Malformed)
    {
      var decoded := decode(cmd);
      if decoded.None? {
        return Fail(Malformed);
      }
      var resolved := Resolve(tables, decoded.value);
      if resolved.Fail? {
        return Fail(resolved.error);
      }
      return Ok(encode(resolved.value));
    }

    /** _SendCommand: at most MaxSendCommandRetries attempts, each with a
      fresh token that is deleted when the attempt ends; the loop stops on
      the first Ack, when the exit event is set, or after an attempt that
      raised (a command that does not decode or resolve, or an unknown
      status string), in which case the result is Pending. */
    method SendCommand(cmd: string, env: (nat, string) -> EnvStep) returns (result: Status)
      requires Valid()
      modifies this`count, this`tokens, this`origin, this`exiting, this`published
      ensures Valid()
      ensures tokens.Keys == old(tokens).Keys
      ensures old(count) <= count <= old(count) + MaxSendCommandRetries
      ensures old(exiting) ==> exiting && count == old(count) && result == Pending
      ensures (result == Nack || result == Timeout) ==> exiting || count == old(count) + MaxSendCommandRetries
      ensures CommandResolvable(cmd) ==> published == old(published) + Payloads(CommandText(cmd), old(count) + 1, count - old(count))
      ensures !CommandResolvable(cmd) ==> published == old(published) && result == Pending
                                          && count == old(count) + (if old(exiting) then 0 else 1)
      ensures CommandResolvable(cmd) && Silent(env) && !old(exiting) ==>
                result == Timeout && count == old(count) + MaxSendCommandRetries
      ensures CommandResolvable(cmd) && AcksAtOnce(env) && !old(exiting) ==>
                result == Ack && count == old(count) + 1
    {
      var retries: nat := MaxSendCommandRetries;
      result := Pending;
      ghost var aborted := false;
      ghost var resolvable := CommandResolvable(cmd);
      ghost var text := if resolvable then CommandText(cmd) else [];
      while retries > 0 && !exiting && result != Ack
        invariant Valid() && tokens.Keys == old(tokens).Keys
        invariant old(count) <= count && count - old(count) <= MaxSendCommandRetries - retries
        invariant old(exiting) ==> exiting && count == old(count) && result == Pending
        invariant retries == MaxSendCommandRetries ==> exiting == old(exiting) && count == old(count) && result == Pending
        invariant !aborted ==> count - old(count) == MaxSendCommandRetries - retries
        invariant aborted ==> retries == 0 && result == Pending
        invariant resolvable ==> published == old(published) + Payloads(text, old(count) + 1, count - old(count))
        invariant !resolvable ==> published == old(published) && result == Pending
                                   && (retries == MaxSendCommandRetries || retries == 0 || old(exiting))
                                   && count - old(count) == (if old(exiting) || retries == MaxSendCommandRetries then 0 else 1)
        invariant resolvable && Silent(env) && !old(exiting) ==>
                    !exiting && !aborted && (retries < MaxSendCommandRetries ==> result == Timeout)
        invariant resolvable && AcksAtOnce(env) && !old(exiting) ==>
                    !aborted && retries >= MaxSendCommandRetries - 1 && (retries < MaxSendCommandRetries ==> result == Ack)
        decreases retries
      {
        retries := retries - 1;
        result := Pending;
        var status := Attempt(cmd, env);
        if status.Fail? {
          retries := 0;
          aborted := true;
        } else {
          result := status.value;
        }
      }
    }
  }
}
