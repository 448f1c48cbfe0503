/** The driver of the scanner: start in ReadingName, feed every character left
    to right, and accept only if no step failed and the final state is
    Finished. */
module Driver {
  import opened Scanner

  /** Where a scan stands after a prefix of its input: the current state and
      everything appended to the buffer so far. */
  datatype Config = Config(state: State, output: string)

  /** The scan of `input` from state `s`, one character at a time, aborting
      at the first failing step. */
  function Run(s: State, input: string): Result<Config>
    decreases |input|
  {
    if input == [] then Ok(Config(s, []))
    else
      var before := Run(s, input[..|input| - 1]);
      if before.Err? then before
      else
        var step := Step(before.value.state, input[|input| - 1]);
        if step.Err? then Err(step.error)
        else Ok(Config(step.value.next, before.value.output + step.value.emitted))
  }

  /** A scan that stopped at `r` continued on further input `q`. */
  function Resume(r: Result<Config>, q: string): Result<Config> {
    if r.Err? then r
    else
      var rest := Run(r.value.state, q);
      if rest.Err? then rest
      else Ok(Config(rest.value.state, r.value.output + rest.value.output))
  }

  /** The whole parse of one record: its output, or why it was rejected. */
  function Parse(input: string): Result<string> {
    var r := Run(ReadingName, input);
    if r.Err? then Err(r.error)
    else if r.value.state.Finished? then Ok(r.value.output)
    else Err(Incomplete(r.value.state))
  }

  /** The driver loop over the caller's buffer. */
  method ParseRecord(input: string) returns (r: Result<string>)
    ensures r == Parse(input)
  {
    var output := new OutputBuffer();
    var current := ReadingName;
    for i := 0 to |input|
      invariant Run(ReadingName, input[..i]) == Ok(Config(current, output.text))
    {
      assert input[..i + 1][..i] == input[..i];
      var next := current.Process(input[i], output);
      match next {
        case Err(e) =>
          assert Run(ReadingName, input[..i + 1]) == Err(e);
          AbortIsFinal(ReadingName, input[..i + 1], input[i + 1..]);
          assert input[..i + 1] + input[i + 1..] == input;
          return Err(e);
        case Ok(n) =>
          current := n;
      }
    }
    assert input[..|input|] == input;
    if current != Finished {
      return Err(Incomplete(current));
    }
    return Ok(output.text);
  }

  /** Scanning a concatenation is scanning the first part and resuming on the
      second. */
  lemma {:induction false} RunConcat(s: State, p: string, q: string)
    ensures Run(s, p + q) == Resume(Run(s, p), q)
    decreases |q|
  {
    if q == [] {
      assert p + q == p;
      match Run(s, p)
      case Err(_) =>
      case Ok(cfg) => assert cfg.output + [] == cfg.output;
    } else {
      var q' := q[..|q| - 1];
      var c := q[|q| - 1];
      assert (p + q)[..|p + q| - 1] == p + q';
      assert (p + q)[|p + q| - 1] == c;
      RunConcat(s, p, q');
      match Run(s, p)
      case Err(_) =>
      case Ok(cfg) =>
        match Run(cfg.state, q')
        case Err(_) =>
        case Ok(rest) =>
          match Step(rest.state, c)
          case Err(_) =>
          case Ok(t) => assert cfg.output + rest.output + t.emitted == cfg.output + (rest.output + t.emitted);
    }
  }

  /** Once a step fails, no further input changes the verdict. */
  lemma AbortIsFinal(s: State, p: string, q: string)
    requires Run(s, p).Err?
    ensures Run(s, p + q) == Run(s, p)
  {
    RunConcat(s, p, q);
  }

  /** Chaining two scans that both succeed. */
  lemma RunThen(s: State, p: string, q: string, mid: Config, last: Config)
    requires Run(s, p) == Ok(mid)
    requires Run(mid.state, q) == Ok(last)
    ensures Run(s, p + q) == Ok(Config(last.state, mid.output + last.output))
  {
    RunConcat(s, p, q);
  }

  /** The buffer is append-only: if a scan of `p + q` succeeds, the scan of
      `p` succeeded too and its output is a prefix of the longer one. */
  lemma OutputGrows(s: State, p: string, q: string)
    requires Run(s, p + q).Ok?
    ensures Run(s, p).Ok?
    ensures Run(s, p).value.output <= Run(s, p + q).value.output
  {
    RunConcat(s, p, q);
  }

  /** Scanning one character and then the rest. */
  lemma RunCons(s: State, c: char, rest: string)
    ensures Step(s, c).Err? ==> Run(s, [c] + rest) == Err(Step(s, c).error)
    ensures Step(s, c).Ok? ==>
      Run(s, [c] + rest) == Resume(Ok(Config(Step(s, c).value.next, Step(s, c).value.emitted)), rest)
  {
    RunConcat(s, [c], rest);
    assert [c][..0] == [];
    if Step(s, c).Ok? {
      var t := Step(s, c).value;
      assert [] + t.emitted == t.emitted;
      assert Run(s, [c]) == Ok(Config(t.next, t.emitted));
    }
  }

  /** The number of characters of `input` consumed while in one of the three
      reading states. */
  ghost function ReadingSteps(s: State, input: string): nat
    decreases |input|
  {
    if input == [] then 0
    else
      var before := Run(s, input[..|input| - 1]);
      ReadingSteps(s, input[..|input| - 1]) +
        (if before.Ok? && IsReading(before.value.state) then 1 else 0)
  }

  /** Every reading step appends exactly one character and nothing else
      appends, so the output is as long as the number of reading steps. */
  lemma {:induction false} OutputLength(s: State, input: string)
    requires Run(s, input).Ok?
    ensures |Run(s, input).value.output| == ReadingSteps(s, input)
    decreases |input|
  {
    if input != [] {
      OutputLength(s, input[..|input| - 1]);
    }
  }

  /** A failure is always a character-level error raised by a step: the
      delimiter error names a character of the input that is not a
      delimiter, and a scan never fails as incomplete. */
  lemma {:induction false} FailuresComeFromSteps(s: State, input: string)
    requires Run(s, input).Err?
    ensures Run(s, input).error.BadDelimiter? || Run(s, input).error.BadTrailing?
    ensures Run(s, input).error.BadDelimiter? ==>
      Run(s, input).error.found in input && !IsDelimiter(Run(s, input).error.found)
    decreases |input|
  {
    var p := input[..|input| - 1];
    if Run(s, p).Err? {
      FailuresComeFromSteps(s, p);
      if Run(s, input).error.BadDelimiter? {
        var k :| 0 <= k < |p| && p[k] == Run(s, input).error.found;
        assert input[k] == p[k];
      }
    }
  }

  /** Finished is absorbing: from it a scan succeeds exactly on line space,
      stays in Finished and writes nothing. */
  lemma {:induction false} FinishedAbsorbs(w: string)
    ensures Run(Finished, w).Ok? <==> forall i :: 0 <= i < |w| ==> IsLineSpace(w[i])
    ensures Run(Finished, w).Ok? ==> Run(Finished, w).value == Config(Finished, [])
    decreases |w|
  {
    if w != [] {
      var p := w[..|w| - 1];
      FinishedAbsorbs(p);
      assert forall i :: 0 <= i < |p| ==> p[i] == w[i];
    }
  }

  /** A reading state copies a field that lacks its terminator verbatim and
      stays put; the terminator then ends the field with a line break. */
  lemma {:induction false} ReadField(s: State, text: string)
    requires IsReading(s) && Terminator(s) !in text
    ensures Run(s, text) == Ok(Config(s, text))
    ensures Run(s, text + [Terminator(s)]) == Ok(Config(Successor(s), text + "\n"))
    decreases |text|
  {
    if text != [] {
      var p := text[..|text| - 1];
      ReadField(s, p);
      assert p + [text[|text| - 1]] == text;
    }
    assert (text + [Terminator(s)])[..|text|] == text;
  }

  /** The run of `n` spaces. */
  function Spaces(n: nat): (r: string)
    ensures |r| == n && forall i :: 0 <= i < n ==> r[i] == ' '
  {
    if n == 0 then [] else Spaces(n - 1) + " "
  }

  /** Spaces between a closing quote and the next delimiter are skipped. */
  lemma {:induction false} SkipSpaces(n: nat)
    ensures Run(ReadingDelimiter, Spaces(n)) == Ok(Config(ReadingDelimiter, []))
  {
    if n > 0 {
      SkipSpaces(n - 1);
      var w := Spaces(n);
      assert w[..n - 1] == Spaces(n - 1);
      assert w[n - 1] == ' ';
      assert Step(ReadingDelimiter, ' ') == Ok(Transition(ReadingDelimiter, []));
      var none: string := [];
      assert none + none == none;
      assert Run(ReadingDelimiter, w) == Ok(Config(ReadingDelimiter, none + none));
    }
  }

  /** The first position of `c` in `s`. */
  function IndexOf(s: string, c: char): (k: nat)
    requires c in s
    ensures k < |s| && s[k] == c && c !in s[..k]
  {
    if s[0] == c then 0 else 1 + IndexOf(s[1..], c)
  }

  /** A reading state that the scan leaves must meet its terminator: the
      input splits into a field without the terminator, the terminator and
      a rest scanned from the successor state. */
  lemma SplitField(s: State, input: string, last: Config) returns (k: nat, restOut: string)
    requires IsReading(s)
    requires Run(s, input) == Ok(last) && last.state != s
    ensures k < |input| && input[k] == Terminator(s) && Terminator(s) !in input[..k]
    ensures last.output == input[..k] + "\n" + restOut
    ensures Run(Successor(s), input[k + 1..]) == Ok(Config(last.state, restOut))
  {
    if Terminator(s) !in input {
      ReadField(s, input);
      assert false;
    }
    k := IndexOf(input, Terminator(s));
    var field := input[..k];
    ReadField(s, field);
    assert input == field + [Terminator(s)] + input[k + 1..];
    RunConcat(s, field + [Terminator(s)], input[k + 1..]);
    restOut := Run(Successor(s), input[k + 1..]).value.output;
  }

  /** The number of spaces `s` starts with. */
  function LeadingSpaces(s: string): (k: nat)
    ensures k <= |s| && s[..k] == Spaces(k)
    ensures k < |s| ==> s[k] != ' '
  {
    if s == [] || s[0] != ' ' then 0
    else
      var k := 1 + LeadingSpaces(s[1..]);
      assert s[..k] == [' '] + s[1..][..k - 1];
      assert Spaces(k) == [' '] + Spaces(k - 1) by { SpacesCons(k - 1); }
      k
  }

  lemma {:induction false} SpacesCons(n: nat)
    ensures Spaces(n + 1) == [' '] + Spaces(n)
  {
    if n > 0 {
      SpacesCons(n - 1);
    }
  }

  /** A prefix that moves to `m` without writing anything can be dropped. */
  lemma SilentPrefix(s: State, p: string, q: string, m: State, last: Config)
    requires Run(s, p) == Ok(Config(m, [])) && Run(s, p + q) == Ok(last)
    ensures Run(m, q) == Ok(last)
  {
    RunConcat(s, p, q);
    assert [] + Run(m, q).value.output == Run(m, q).value.output;
  }

  /** The character that ends the run of spaces in the delimiter state must
      be a period or a comma, and it writes nothing. */
  lemma DelimiterChar(c: char, rest: string, last: Config)
    requires c != ' ' && Run(ReadingDelimiter, [c] + rest) == Ok(last)
    ensures c == '.' || c == ','
    ensures Run(if c == '.' then Finished else ReadingCost, rest) == Ok(last)
  {
    assert [c][..0] == [];
    if !IsDelimiter(c) {
      AbortIsFinal(ReadingDelimiter, [c], rest);
      assert false;
    }
    var next := if c == '.' then Finished else ReadingCost;
    var none: string := [];
    assert none + none == none;
    assert Run(ReadingDelimiter, [c]) == Ok(Config(next, none + none));
    SilentPrefix(ReadingDelimiter, [c], rest, next, last);
  }

  /** Leaving the delimiter state: skip spaces, then a period goes to
      Finished or a comma to ReadingCost, and the rest is scanned from there
      without the delimiter adding output. */
  lemma SplitDelimiter(input: string, last: Config) returns (pad: nat, next: State)
    requires Run(ReadingDelimiter, input) == Ok(last) && last.state != ReadingDelimiter
    ensures pad < |input| && input[..pad] == Spaces(pad)
    ensures input[pad] == '.' || input[pad] == ','
    ensures next == if input[pad] == '.' then Finished else ReadingCost
    ensures Run(next, input[pad + 1..]) == Ok(last)
  {
    pad := LeadingSpaces(input);
    SkipSpaces(pad);
    assert pad == |input| ==> input == Spaces(pad);
    assert pad < |input|;
    var c, rest := input[pad], input[pad + 1..];
    assert input == Spaces(pad) + ([c] + rest);
    SilentPrefix(ReadingDelimiter, Spaces(pad), [c] + rest, ReadingDelimiter, last);
    DelimiterChar(c, rest, last);
    next := if input[pad] == '.' then Finished else ReadingCost;
  }
}
