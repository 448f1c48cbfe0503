/** The finite-state scanner of the shop-record parser: its five states, the
    transition each state makes on one character, and the output buffer the
    transitions append to. */
module Scanner {

  /** The states of the scanner; scanning starts in ReadingName and a record is
      complete only in Finished. */
  datatype State = ReadingName | ReadingCost | ReadingProduct | ReadingDelimiter | Finished {

    /** One step on the caller's buffer: appends what the state emits for `c`
        and returns the next state, or fails without touching the buffer. */
    method Process(c: char, output: OutputBuffer) returns (r: Result<State>)
      modifies output
      ensures r == NextState(Step(this, c))
      ensures output.text == old(output.text) + Emitted(Step(this, c))
    {
      match this
      case ReadingName =>
        if c == '|' {
          output.Append("\n");
          return Ok(ReadingCost);
        }
        output.Append([c]);
        return Ok(ReadingName);
      case ReadingCost =>
        if c == '"' {
          output.Append("\n");
          return Ok(ReadingProduct);
        }
        output.Append([c]);
        return Ok(ReadingCost);
      case ReadingProduct =>
        if c == '"' {
          output.Append("\n");
          return Ok(ReadingDelimiter);
        }
        output.Append([c]);
        return Ok(ReadingProduct);
      case ReadingDelimiter =>
        if c == '.' {
          return Ok(Finished);
        }
        if c == ',' {
          return Ok(ReadingCost);
        }
        if c != ' ' {
          return Err(BadDelimiter(c));
        }
        return Ok(ReadingDelimiter);
      case Finished =>
        if c != ' ' && c != '\n' && c != '\r' {
          return Err(BadTrailing);
        }
        return Ok(Finished);
    }
  }

  /** Why a scan was rejected. Only the delimiter error keeps the offending
      character; the trailing-content error does not. */
  datatype ScanError =
    | BadDelimiter(found: char)
    | BadTrailing
    | Incomplete(final: State)

  datatype Result<T> = Ok(value: T) | Err(error: ScanError)

  /** What one accepted character does: the state to move to and the text
      appended to the output. */
  datatype Transition = Transition(next: State, emitted: string)

  /** The three states that copy text to the output. */
  predicate IsReading(s: State) {
    s.ReadingName? || s.ReadingCost? || s.ReadingProduct?
  }

  /** The character that closes the field a reading state copies. */
  function Terminator(s: State): char
    requires IsReading(s)
  {
    if s.ReadingName? then '|' else '"'
  }

  /** The state a reading state hands over to at its terminator. */
  function Successor(s: State): State
    requires IsReading(s)
  {
    match s
    case ReadingName => ReadingCost
    case ReadingCost => ReadingProduct
    case ReadingProduct => ReadingDelimiter
  }

  /** The characters allowed after the final period. */
  predicate IsLineSpace(c: char) {
    c == ' ' || c == '\n' || c == '\r'
  }

  /** The characters that do not fail the delimiter state. */
  predicate IsDelimiter(c: char) {
    c == '.' || c == ',' || c == ' '
  }

  /** The transition function of the scanner. */
  function Step(s: State, c: char): (r: Result<Transition>)
    // a reading state copies everything but its terminator, which becomes a line break
    ensures IsReading(s) && c != Terminator(s) ==> r == Ok(Transition(s, [c]))
    ensures IsReading(s) && c == Terminator(s) ==> r == Ok(Transition(Successor(s), "\n"))
    // the delimiter state writes nothing and fails on anything but '.', ',' and ' '
    ensures s.ReadingDelimiter? ==> (r.Ok? <==> IsDelimiter(c))
    ensures s.ReadingDelimiter? && r.Err? ==> r.error == BadDelimiter(c)
    ensures s.ReadingDelimiter? && r.Ok? ==>
      r.value.emitted == [] &&
      r.value.next == (if c == '.' then Finished else if c == ',' then ReadingCost else ReadingDelimiter)
    // Finished is absorbing, writes nothing and fails on anything but line space
    ensures s.Finished? ==> (r.Ok? <==> IsLineSpace(c))
    ensures s.Finished? && r.Err? ==> r.error == BadTrailing
    ensures s.Finished? && r.Ok? ==> r.value == Transition(Finished, [])
    // only the two non-reading states can fail, and every step appends at most one character
    ensures r.Err? ==> !IsReading(s)
    ensures r.Ok? ==> |r.value.emitted| == (if IsReading(s) then 1 else 0)
  {
    match s
    case ReadingName =>
      if c == '|' then Ok(Transition(ReadingCost, "\n")) else Ok(Transition(ReadingName, [c]))
    case ReadingCost =>
      if c == '"' then Ok(Transition(ReadingProduct, "\n")) else Ok(Transition(ReadingCost, [c]))
    case ReadingProduct =>
      if c == '"' then Ok(Transition(ReadingDelimiter, "\n")) else Ok(Transition(ReadingProduct, [c]))
    case ReadingDelimiter =>
      if c == '.' then Ok(Transition(Finished, []))
      else if c == ',' then Ok(Transition(ReadingCost, []))
      else if c != ' ' then Err(BadDelimiter(c))
      else Ok(Transition(ReadingDelimiter, []))
    case Finished =>
      if c != ' ' && c != '\n' && c != '\r' then Err(BadTrailing) else Ok(Transition(Finished, []))
  }

  /** The state a step returns, or the error it raises. */
  function NextState(r: Result<Transition>): Result<State> {
    match r
    case Ok(t) => Ok(t.next)
    case Err(e) => Err(e)
  }

  /** The text a step appends; a failing step appends nothing. */
  function Emitted(r: Result<Transition>): string {
    match r
    case Ok(t) => t.emitted
    case Err(_) => []
  }

  /** The caller-owned, append-only output buffer. */
  class OutputBuffer {
    var text: string

    constructor ()
      ensures text == []
    {
      text := [];
    }

    method Append(s: string)
      modifies this
      ensures text == old(text) + s
    {
      text := text + s;
    }
  }
}
