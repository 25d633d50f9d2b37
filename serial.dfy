/** The serial line framer of serialadapter.py: SerialAdapter.run reads the
    gateway's serial port one character at a time, drops carriage returns,
    cuts lines at line feeds, waits for the gateway's banner line and hands
    every later line to the callback. The reads made before the stop event
    is seen are given as a sequence, a read that returns nothing being None.

    The code accepts whatever the first line says as the banner (see
    AnyBannerUnlocks); the adapter below runs with the banner test as
    written (AsWritten) or as the code evidently means it (StartsWithKey). */
module Serial {
  import opened Wire

  /** How the banner line is judged: as the code does it, comparing the bool
      that startswith returns with -1, or by what startswith says. */
  datatype HeaderTest = AsWritten | StartsWithKey

  /** `chunk.startswith(validDataKey) > -1` as written: True and False
      compare as 1 and 0, and both are above -1. */
  predicate HeaderAccepted(chunk: string, key: string, test: HeaderTest) {
    match test
    case AsWritten => (if key <= chunk then 1 else 0) > -1
    case StartsWithKey => key <= chunk
  }

  /** The framer's state: whether the banner was accepted (valid), the
      banner, the characters of the current line (inBytes), the lines handed
      to the callback so far, and the lines thrown away while waiting for the
      banner. */
  datatype Framer = Framer(valid: bool, header: string, inBytes: string, lines: seq<string>, skipped: seq<string>)

  const Start := Framer(false, [], [], [], [])

  /** One read of the loop in run. */
  function Step(f: Framer, data: Option<char>, key: string, test: HeaderTest): Framer {
    match data
    case None => f
    case Some(c) =>
      if c == '\r' then f
      else if c == '\n' then
        if !f.valid then
          if HeaderAccepted(f.inBytes, key, test) then f.(valid := true, header := f.inBytes, inBytes := [])
          else f.(inBytes := [], skipped := f.skipped + [f.inBytes])
        else f.(inBytes := [], lines := f.lines + [f.inBytes])
      else f.(inBytes := f.inBytes + [c])
  }

  function Frame(input: seq<Option<char>>, key: string, test: HeaderTest): Framer
    decreases |input|
  {
    if input == [] then Start
    else Step(Frame(input[..|input| - 1], key, test), input[|input| - 1], key, test)
  }

  /** The characters the port produced, carriage returns removed. */
  function Text(input: seq<Option<char>>): string
    decreases |input|
  {
    if input == [] then []
    else
      var last := input[|input| - 1];
      Text(input[..|input| - 1]) + (if last.Some? && last.value != '\r' then [last.value] else [])
  }

  /** Each line followed by its line feed. */
  function Terminated(lines: seq<string>): string
    decreases |lines|
  {
    if lines == [] then [] else Terminated(lines[..|lines| - 1]) + lines[|lines| - 1] + "\n"
  }

  predicate IsLine(s: string) {
    forall i :: 0 <= i < |s| ==> s[i] != '\r' && s[i] != '\n'
  }

  /** The framer's state accounts for the text read so far: the lines thrown
      away, none of which passes the banner test, then the banner, which
      does, then the delivered lines, each with its line feed, then the
      unfinished line; none of them holds a carriage return or a line feed. */
  predicate Splits(f: Framer, text: string, key: string, test: HeaderTest) {
    && IsLine(f.inBytes) && IsLine(f.header)
    && (forall k :: 0 <= k < |f.lines| ==> IsLine(f.lines[k]))
    && (forall k :: 0 <= k < |f.skipped| ==> IsLine(f.skipped[k]) && !HeaderAccepted(f.skipped[k], key, test))
    && (f.valid ==> HeaderAccepted(f.header, key, test)
                    && text == Terminated(f.skipped) + f.header + "\n" + Terminated(f.lines) + f.inBytes)
    && (!f.valid ==> text == Terminated(f.skipped) + f.inBytes && f.lines == [])
  }

  lemma TerminatedSnoc(lines: seq<string>, s: string)
    ensures Terminated(lines + [s]) == Terminated(lines) + s + "\n"
  {
    assert (lines + [s])[..|lines|] == lines;
  }

  lemma StepSplits(g: Framer, text: string, data: Option<char>, key: string, test: HeaderTest)
    requires Splits(g, text, key, test)
    ensures Splits(Step(g, data, key, test), text + (if data.Some? && data.value != '\r' then [data.value] else []), key, test)
  {
    if data.Some? && data.value == '\n' {
      if g.valid {
        LineSplits(g, text, key, test);
      } else {
        BannerSplits(g, text, key, test);
      }
    }
  }

  /** A line feed after the banner delivers the current line. */
  lemma LineSplits(g: Framer, text: string, key: string, test: HeaderTest)
    requires Splits(g, text, key, test) && g.valid
    ensures Splits(Step(g, Some('\n'), key, test), text + "\n", key, test)
  {
    TerminatedSnoc(g.lines, g.inBytes);
    var f := Step(g, Some('\n'), key, test);
    assert f == g.(inBytes := [], lines := g.lines + [g.inBytes]);
    assert forall k :: 0 <= k < |f.lines| ==> IsLine(f.lines[k]);
    var banner := Terminated(g.skipped) + g.header + "\n";
    calc {
      text + "\n";
      (banner + Terminated(g.lines) + g.inBytes) + "\n";
      banner + (Terminated(g.lines) + g.inBytes + "\n");
      banner + Terminated(f.lines) + f.inBytes;
    }
  }

  /** A line feed before the banner either accepts the line as the banner
      or skips it. */
  lemma BannerSplits(g: Framer, text: string, key: string, test: HeaderTest)
    requires Splits(g, text, key, test) && !g.valid
    ensures Splits(Step(g, Some('\n'), key, test), text + "\n", key, test)
  {
    if !HeaderAccepted(g.inBytes, key, test) {
      TerminatedSnoc(g.skipped, g.inBytes);
      var f := Step(g, Some('\n'), key, test);
      assert f.skipped == g.skipped + [g.inBytes];
      assert forall k :: 0 <= k < |f.skipped| ==> IsLine(f.skipped[k]) && !HeaderAccepted(f.skipped[k], key, test);
    }
  }

  /** Framing loses nothing and invents nothing: the text read so far is
      the lines skipped while waiting for the banner, the banner, every
      delivered line in order, and the unfinished line, which is never
      delivered. */
  lemma {:induction false} FrameSplitsText(input: seq<Option<char>>, key: string, test: HeaderTest)
    ensures Splits(Frame(input, key, test), Text(input), key, test)
    decreases |input|
  {
    if input != [] {
      var init := input[..|input| - 1];
      FrameSplitsText(init, key, test);
      StepSplits(Frame(init, key, test), Text(init), input[|input| - 1], key, test);
    }
  }

  /** As written, the first line is the banner whatever it says, and nothing
      is ever skipped: a port whose first line is not the expected banner
      still has its second line delivered, which the checked banner test
      would not do. */
  lemma AnyBannerUnlocks(input: seq<Option<char>>, key: string)
    ensures Frame(input, key, AsWritten).skipped == []
    ensures var example := [Some('x'), Some('\n'), Some('y'), Some('\n')];
      && Frame(example, "Listening", AsWritten).lines == ["y"]
      && Frame(example, "Listening", StartsWithKey).lines == []
  {
    FrameSplitsText(input, key, AsWritten);
    var f := Frame(input, key, AsWritten);
    assert |f.skipped| > 0 ==> HeaderAccepted(f.skipped[0], key, AsWritten);
    var example := [Some('x'), Some('\n'), Some('y'), Some('\n')];
    assert example[..1][..0] == [];
    assert example[..2][..1] == example[..1];
    assert example[..3][..2] == example[..2];
    assert example[..4][..3] == example[..3];
    assert example[..4] == example;
    assert Frame(example[..1], "Listening", AsWritten) == Framer(false, [], "x", [], []);
    assert Frame(example[..2], "Listening", AsWritten) == Framer(true, "x", [], [], []);
    assert Frame(example[..3], "Listening", AsWritten) == Framer(true, "x", "y", [], []);
    assert !("Listening" <= "x") && !("Listening" <= "y");
    assert Frame(example[..1], "Listening", StartsWithKey) == Framer(false, [], "x", [], []);
    assert Frame(example[..2], "Listening", StartsWithKey) == Framer(false, [], [], [], ["x"]);
    assert Frame(example[..3], "Listening", StartsWithKey) == Framer(false, [], "y", [], ["x"]);
  }

  /** With the banner checked, nothing is delivered before the first line
      that starts with the expected key, and that line is the banner. */
  lemma CheckedBannerGuardsDelivery(input: seq<Option<char>>, key: string)
    ensures var f := Frame(input, key, StartsWithKey);
      && (f.lines != [] ==> f.valid)
      && (f.valid ==> key <= f.header)
      && (forall k :: 0 <= k < |f.skipped| ==> !(key <= f.skipped[k]))
  {
    FrameSplitsText(input, key, StartsWithKey);
  }

  class SerialAdapter {
    const validDataKey: string
    const callback: Option<string -> bool>   // true when the call raises

    /** Start, without opening the port. */
    constructor (callback: Option<string -> bool>, validDataKey: string)
      ensures this.callback == callback && this.validDataKey == validDataKey
    {
      this.callback := callback;
      this.validDataKey := validDataKey;
    }

    /** run, with the banner judged as written or as intended: the lines
      handed to the callback, in order, are the framer's; a callback that
      raises does not stop the framing, and with no callback nothing is
      delivered. */
    method Run(input: seq<Option<char>>, test: HeaderTest) returns (calls: seq<string>)
      ensures calls == if callback.Some? then Frame(input, validDataKey, test).lines else []
    {
      var valid := false;
      var inBytes: string := [];
      ghost var header: string := [];
      ghost var lines: seq<string> := [];
      ghost var skipped: seq<string> := [];
      calls := [];
      var i := 0;
      while i < |input|
        invariant 0 <= i <= |input|
        invariant Framer(valid, header, inBytes, lines, skipped) == Frame(input[..i], validDataKey, test)
        invariant calls == if callback.Some? then lines else []
      {
        var data := input[i];
        assert input[..i + 1][..i] == input[..i];
        i := i + 1;
        if data.Some? {
          if data.value == '\r' {
            continue;
          }
          if data.value == '\n' {
            if !valid {
              var chunk := inBytes;
              if HeaderAccepted(chunk, validDataKey, test) {
                valid := true;
                header := chunk;
              } else {
                skipped := skipped + [chunk];
              }
              inBytes := [];
              continue;
            } else {
              if callback.Some? {
                var raised := callback.value(inBytes);
                calls := calls + [inBytes];
              }
              lines := lines + [inBytes];
              inBytes := [];
            }
          } else {
            inBytes := inBytes + [data.value];
          }
        }
      }
      assert input[..i] == input;
    }
  }
}
