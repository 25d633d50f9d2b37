/** Shared vocabulary of the daemons: the decoded form of a URL-encoded
    payload, the outcome of a call that may raise, and the integer and
    decimal literals that Python's int() and float() accept. */
module Wire {

  datatype Option<+T> = None | Some(value: T)

  /** Why a Python call raised instead of returning. */
  datatype Error =
    | Malformed                              // UrlDecode raised ValueError
    | MissingKey(key: string)                // a dict lookup raised KeyError
    | BadNumber(text: string)                // float() raised ValueError
    | BadClock                               // datetime.time() rejected an hour or minute
    | InvalidOp(op: string)                  // raise "Invalid op"
    | Unresolved(key: string, value: string) // _Resolve found no configuration key
    | UnknownStatus(status: string)          // stateStrToState has no such entry
    | NotCallable(kind: string)              // a configured handler that is not a function
    | NoClient                               // a method called on a client that is None

  datatype Result<+T> = Ok(value: T) | Fail(error: Error)

  /** A decoded payload as parse_qs returns it: every key maps to its
      non-empty list of values, of which the daemons only read the first. */
  type Query = q: map<string, seq<string>> | forall k :: k in q ==> q[k] != [] witness map[]

  function First(q: Query, key: string): string
    requires key in q
  {
    q[key][0]
  }

  /** A configuration table as the items of its dict, in iteration order. */
  type Table = seq<(string, string)>

  predicate DistinctKeys(tb: Table) {
    forall i, j :: 0 <= i < j < |tb| ==> tb[i].0 != tb[j].0
  }

  /** cfg[key][k] */
  function Lookup(tb: Table, key: string): Option<string> {
    if tb == [] then None else if tb[0].0 == key then Some(tb[0].1) else Lookup(tb[1..], key)
  }

  /** Python's `sub in s` / `s.find(sub) != -1`. */
  predicate Contains(s: string, sub: string) {
    sub <= s || (s != [] && Contains(s[1..], sub))
  }

  /** str.lower on ASCII text. */
  function LowerChar(c: char): char {
    if 'A' <= c <= 'Z' then (c as int + 32) as char else c
  }

  function Lower(s: string): (r: string)
    ensures |r| == |s|
    ensures forall i :: 0 <= i < |s| ==> r[i] == LowerChar(s[i])
  {
    if s == [] then [] else [LowerChar(s[0])] + Lower(s[1..])
  }

  predicate IsDigit(c: char) {
    '0' <= c <= '9'
  }

  predicate AllDigits(s: string) {
    forall i :: 0 <= i < |s| ==> IsDigit(s[i])
  }

  /** The value of a run of decimal digits, most significant first. */
  function DigitsValue(s: string): nat
    requires AllDigits(s)
  {
    if s == [] then 0 else DigitsValue(s[..|s| - 1]) * 10 + (s[|s| - 1] as int - '0' as int)
  }

  function Pow10(n: nat): (r: nat)
    ensures r > 0
  {
    if n == 0 then 1 else 10 * Pow10(n - 1)
  }

  /** The sign of a numeric literal and the text after it. */
  function SplitSign(s: string): (bool, string) {
    if |s| > 0 && (s[0] == '-' || s[0] == '+') then (s[0] == '-', s[1..]) else (false, s)
  }

  /** int(s, 10): an optional sign and at least one decimal digit. */
  function ParseInt(s: string): (r: Option<int>)
    ensures r.Some? <==> var (_, u) := SplitSign(s); u != [] && AllDigits(u)
  {
    var (negative, u) := SplitSign(s);
    if u != [] && AllDigits(u) then
      Some(if negative then -(DigitsValue(u) as int) else DigitsValue(u))
    else None
  }

  function IndexOfDot(u: string): (i: nat)
    ensures i <= |u|
    ensures forall j :: 0 <= j < i ==> u[j] != '.'
    ensures i < |u| ==> u[i] == '.'
  {
    if u == [] then 0 else if u[0] == '.' then 0 else 1 + IndexOfDot(u[1..])
  }

  /** float(s) for plain decimal notation: an optional sign, digits, and an
      optional '.' followed by digits, with at least one digit in all. */
  function ParseReal(s: string): (r: Option<real>)
  {
    var (negative, u) := SplitSign(s);
    var i := IndexOfDot(u);
    var whole := u[..i];
    var frac := if i < |u| then u[i + 1..] else [];
    if AllDigits(whole) && AllDigits(frac) && |whole| + |frac| > 0 then
      var magnitude := DigitsValue(whole) as real + DigitsValue(frac) as real / Pow10(|frac|) as real;
      Some(if negative then -magnitude else magnitude)
    else None
  }

  /** Every literal int() accepts, float() accepts with the same value. */
  lemma ParseIntIsParseReal(s: string)
    requires ParseInt(s).Some?
    ensures ParseReal(s) == Some(ParseInt(s).value as real)
  {
    var (negative, u) := SplitSign(s);
    DigitsHaveNoDot(u);
    assert u[..|u|] == u;
  }

  lemma DigitsHaveNoDot(u: string)
    requires AllDigits(u)
    ensures IndexOfDot(u) == |u|
  {
    if u != [] {
      DigitsHaveNoDot(u[1..]);
    }
  }
}
