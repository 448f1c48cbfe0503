# ShopParser scanner, modelled in Dafny

ShopParser turns one purchase record such as

    Ivan Ivanov | 359 "apples", 90 "coffee", 30 "legumes (peas, beans, peanuts)".

into one field per line: the customer name, then the cost and the product of each item.
It does this with a finite-state scanner, the enum `State` in
`src/main/java/ru/samsung/itschool/shopparser/State.java`. The enum has five states:
`READING_NAME`, `READING_COST`, `READING_PRODUCT`, `READING_DELIMITER` and `FINISHED`.
Each state's `process(char, StringBuilder)` looks at one character. It may append to
the caller's output buffer. It returns the next state, or throws on malformed input.
`main` starts in `READING_NAME`, feeds every character of a fixed record in order, and
rejects the record unless the final state is `FINISHED`.

The model has four modules:

- `Scanner` (scanner.dfy): the `State` datatype, the pure transition function `Step`, the
  imperative `State.Process` that appends to an `OutputBuffer` object (the `StringBuilder`),
  and the error type. Java's exceptions become `Result` values: `BadDelimiter(c)` keeps the
  offending character, `BadTrailing` does not, and `Incomplete(state)` is the driver's final
  check.
- `Driver` (driver.dfy): `Run`, the left fold of `Step` over an input, which stops at the
  first failing step; `Parse`, `Run` from `ReadingName` followed by the final-state check;
  `ParseRecord`, the imperative driver loop over a fresh buffer, proved equal to `Parse`;
  and the lemmas about the fold.
- `Record` (record.dfy): the record format as data. A `Shop` has a name, a non-empty list
  of items and a trailer. Each `Item` has a cost, a product and the spaces after its closing
  quote. `Render` gives a record's input line and `Fields` its expected output. The module
  proves that the driver accepts exactly the renderings of well-formed records and then
  prints their fields. It also proves how malformed variants are rejected.
- `Demo` (demo.dfy): the demonstration run of `main` and the boundary cases, derived from
  the general theorems.

The fold is deterministic because `Run` and `Parse` are functions: the same input always
gives the same output. `Run` and `Parse` have no contracts of their own. The lemmas and
`ParseRecord` state what they mean.

## Model

| member | source | states |
|---|---|---|
| Scanner.Step | src/main/java/ru/samsung/itschool/shopparser/State.java:21-98 | a reading state copies every character except its terminator (`\|` for the name, `"` for cost and product); the terminator becomes one line break and moves to the next state; the delimiter state writes nothing, goes to Finished on `.`, to ReadingCost on `,`, stays on a space and fails with `BadDelimiter` carrying the character otherwise; Finished writes nothing, stays on space, `\n` or `\r`, and fails with `BadTrailing` (no character) otherwise; only those two states can fail; every accepted step appends exactly one character in a reading state and none elsewhere |
| Scanner.State.Process | src/main/java/ru/samsung/itschool/shopparser/State.java:21-109 | processing one character on the caller's buffer returns the step's next state or error and appends exactly the step's text; a failing step leaves the buffer unchanged |
| Scanner.OutputBuffer.constructor | src/main/java/ru/samsung/itschool/shopparser/State.java:120 | the output buffer starts empty |
| Scanner.OutputBuffer.Append | src/main/java/ru/samsung/itschool/shopparser/State.java:25-28 | appending extends the buffer by the given text and changes nothing else |
| Driver.ParseRecord | src/main/java/ru/samsung/itschool/shopparser/State.java:120-132 | the loop from ReadingName over every character, aborting at the first error and then requiring Finished, returns exactly the fold's verdict and output |
| Driver.RunConcat | src/main/java/ru/samsung/itschool/shopparser/State.java:124-128 | scanning `p + q` is scanning `p` and resuming from its state on `q`, with the outputs concatenated |
| Driver.AbortIsFinal | src/main/java/ru/samsung/itschool/shopparser/State.java:76-78 | once a step has failed, no further input changes the error |
| Driver.OutputGrows | src/main/java/ru/samsung/itschool/shopparser/State.java:25-58 | the buffer is append-only: if a longer input scans, its prefix scans too, and the prefix's output is a prefix of the longer output |
| Driver.OutputLength | src/main/java/ru/samsung/itschool/shopparser/State.java:25-58 | the output of a successful scan is exactly as long as the number of characters consumed in the three reading states |
| Driver.FailuresComeFromSteps | src/main/java/ru/samsung/itschool/shopparser/State.java:76-93 | a failed fold reports a character-level error, never `Incomplete`; a delimiter error names a character of the input that is not `.`, `,` or space |
| Driver.FinishedAbsorbs | src/main/java/ru/samsung/itschool/shopparser/State.java:88-97 | from Finished an input scans if and only if it is all space, `\n` and `\r`, and then the state stays Finished and nothing is written |
| Driver.ReadField | src/main/java/ru/samsung/itschool/shopparser/State.java:21-61 | a reading state copies a field without its terminator verbatim and stays; the terminator then ends the field with a line break and moves to the next state |
| Driver.SkipSpaces | src/main/java/ru/samsung/itschool/shopparser/State.java:76-81 | spaces after a closing quote leave the delimiter state unchanged and write nothing |
| Driver.SplitField | src/main/java/ru/samsung/itschool/shopparser/State.java:21-61 | a scan that leaves a reading state splits at the first terminator: field, line break, and the rest scanned from the next state |
| Driver.SplitDelimiter | src/main/java/ru/samsung/itschool/shopparser/State.java:67-83 | a scan that leaves the delimiter state skips spaces and then reads `.` (to Finished) or `,` (to ReadingCost), writing nothing |
| Record.ScanItem | src/main/java/ru/samsung/itschool/shopparser/State.java:36-83 | one item (cost, quoted product, spaces) takes ReadingCost back to the delimiter state and writes its cost line and its product line |
| Record.ScanItemsOpen | src/main/java/ru/samsung/itschool/shopparser/State.java:36-83 | a comma-separated item list takes ReadingCost to the delimiter state and writes all cost and product lines in order |
| Record.ScanItems | src/main/java/ru/samsung/itschool/shopparser/State.java:36-97 | the item list with its final period and line-space trailer takes ReadingCost to Finished |
| Record.ScanBody | src/main/java/ru/samsung/itschool/shopparser/State.java:21-83 | a well-formed record up to its final period leaves the scanner in the delimiter state with every field already written |
| Record.AcceptsRecord | src/main/java/ru/samsung/itschool/shopparser/State.java:115-132 | every well-formed record is accepted and its output is name, cost, product, cost, product, … one per line, untrimmed |
| Record.AcceptedFields | src/main/java/ru/samsung/itschool/shopparser/State.java:36-61 | an input that takes ReadingCost to Finished starts with a cost, a quote, a product and a quote, and those two are the first two output lines |
| Record.AcceptedItem | src/main/java/ru/samsung/itschool/shopparser/State.java:36-83 | such an input starts with one well-formed item followed by `.` or `,` |
| Record.AcceptedItems | src/main/java/ru/samsung/itschool/shopparser/State.java:36-97 | such an input is a rendered item list with its period and trailer, and its output is the items' fields |
| Record.AcceptedRecord | src/main/java/ru/samsung/itschool/shopparser/State.java:115-132 | whatever the driver accepts is the rendering of a well-formed record whose fields are the output |
| Record.AcceptsExactlyRecords | src/main/java/ru/samsung/itschool/shopparser/State.java:115-132 | the driver accepts an input if and only if it renders a well-formed record, and then the output is that record's fields |
| Record.RejectsBadDelimiter | src/main/java/ru/samsung/itschool/shopparser/State.java:76-78 | a non-delimiter character after a closing quote rejects the record with that character, whatever follows |
| Record.RejectsTrailing | src/main/java/ru/samsung/itschool/shopparser/State.java:92-93 | a character other than space or line break after the final period rejects the record as trailing content, whatever follows |
| Record.RejectsTruncated | src/main/java/ru/samsung/itschool/shopparser/State.java:131-132 | any prefix of a well-formed record that stops before its final period (inside a name, a cost, quotes or before the delimiter) is rejected as incomplete |
| Record.LineCount | src/main/java/ru/samsung/itschool/shopparser/State.java:25-58 | when no field contains a line break, a record with k items prints exactly 2k + 1 line breaks |
| Demo.DemoRecordFacts | src/main/java/ru/samsung/itschool/shopparser/State.java:117 | the demonstration line is the rendering of a well-formed three-item record, and its fields are the expected output |
| Demo.Demonstrate | src/main/java/ru/samsung/itschool/shopparser/State.java:115-135 | the driver run on the demonstration line finishes and returns `Ivan Ivanov \n 359 \napples\n 90 \ncoffee\n 30 \nlegumes (peas, beans, peanuts)\n` |
| Demo.OneItemRecord | src/main/java/ru/samsung/itschool/shopparser/State.java:115-132 | a one-item record `name\|cost"product".` prints name, cost and product lines |
| Demo.OneItemExamples | src/main/java/ru/samsung/itschool/shopparser/State.java:115-132 | `A\|1"x".` gives `A\n1\nx\n` and `Bob\|5"milk".` gives `Bob\n5\nmilk\n` |
| Demo.LetterAfterQuote | src/main/java/ru/samsung/itschool/shopparser/State.java:76-78 | `A\|1"x" y"z".` is rejected with the delimiter error naming `y` |
| Demo.OpenQuote | src/main/java/ru/samsung/itschool/shopparser/State.java:131-132 | `A\|1"x` is rejected as incomplete in ReadingProduct |
| Demo.TextAfterPeriod | src/main/java/ru/samsung/itschool/shopparser/State.java:92-93 | `A\|1"x". ok` is rejected as trailing content |

## Left out

- The console output `System.out.print(output)` at line 135: I/O with nothing to verify. `Demo.Demonstrate` returns the output instead of printing it.
- The `String[] args` parameter of `main`: `main` ignores it.
- The Russian exception message texts and their `String.format` rendering (lines 77-78, 93, 132): errors are tagged variants. Only the delimiter error carries the offending character, as in the source.
- Java exception unwinding: a thrown `IllegalStateException` becomes an `Err` result. The fold stops there and no partial output is returned.
- UTF-16 code units: input is a Dafny `string` and characters are compared by equality.
- The demonstration line at line 117 is not kept as one literal. demo.dfy writes it as a concatenation of its fields, which gives the same string value. The split keeps the proof from reasoning character by character over an 80-character literal.

## Differences between the documentation and the code

Where the documented behaviour and the code differ, the model follows the code:

- Only the delimiter error carries the offending character. The trailing-content error at
  line 93 carries none, and neither error records a position in the input.
