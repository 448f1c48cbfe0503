/** The demonstration run of the driver on its fixed record, and the boundary
    cases of the record format as instances of the general theorems. */
module Demo {
  import opened Scanner
  import opened Driver
  import opened Record

  /** The fixed input line of the demonstration, written field by field:
      "Ivan Ivanov | 359 \"apples\", 90 \"coffee\", 30 \"legumes (peas, beans, peanuts)\"." */
  const DemoInput: string :=
    "Ivan Ivanov " + "|" + " 359 " + "\"" + "apples" + "\"" + "," + " 90 " + "\"" + "coffee" + "\"" + "," +
    " 30 " + "\"" + "legumes (peas, beans, peanuts)" + "\"" + "."

  /** The expected output, one field per line, spaces kept. */
  const DemoOutput: string :=
    "Ivan Ivanov " + "\n" + " 359 " + "\n" + "apples" + "\n" + " 90 " + "\n" + "coffee" + "\n" +
    " 30 " + "\n" + "legumes (peas, beans, peanuts)" + "\n"

  /** The demonstration record as data. */
  const DemoRecord: Shop := Shop("Ivan Ivanov ",
    [Item(" 359 ", "apples", 0), Item(" 90 ", "coffee", 0),
     Item(" 30 ", "legumes (peas, beans, peanuts)", 0)],
    "")

  /** A record of three items without padding or trailer, rendered. */
  lemma ThreeItemsRender(name: string, c0: string, p0: string, c1: string, p1: string, c2: string, p2: string)
    ensures Render(Shop(name, [Item(c0, p0, 0), Item(c1, p1, 0), Item(c2, p2, 0)], "")) ==
      name + "|" + c0 + "\"" + p0 + "\"" + "," + c1 + "\"" + p1 + "\"" + "," + c2 + "\"" + p2 + "\"" + "."
  {
    var items := [Item(c0, p0, 0), Item(c1, p1, 0), Item(c2, p2, 0)];
    var none: string := [];
    assert Spaces(0) == none;
    assert items[1..][1..] == items[2..];
    var r0, r1, r2 := c0 + "\"" + p0 + "\"", c1 + "\"" + p1 + "\"", c2 + "\"" + p2 + "\"";
    assert RenderItem(items[0]) == r0 + none;
    assert RenderItem(items[1]) == r1 + none;
    assert RenderItem(items[2]) == r2 + none;
    assert RenderItems(items[2..]) == r2;
    assert RenderItems(items[1..]) == r1 + "," + r2;
    assert RenderItems(items) == r0 + "," + (r1 + "," + r2);
    var a0 := name + "|";
    var a1 := a0 + c0 + "\"" + p0 + "\"";
    assert a0 + r0 == a1;
    var a2 := a1 + "," + c1 + "\"" + p1 + "\"";
    assert a1 + "," + r1 == a2;
    var a3 := a2 + "," + c2 + "\"" + p2 + "\"";
    assert a2 + "," + r2 == a3;
    assert a0 + (r0 + "," + (r1 + "," + r2)) == a3;
    assert Render(Shop(name, items, "")) == a3 + "." + none;
  }

  /** The fields of a record of three items. */
  lemma ThreeItemsFields(name: string, c0: string, p0: string, c1: string, p1: string, c2: string, p2: string)
    ensures Fields(Shop(name, [Item(c0, p0, 0), Item(c1, p1, 0), Item(c2, p2, 0)], "")) ==
      name + "\n" + c0 + "\n" + p0 + "\n" + c1 + "\n" + p1 + "\n" + c2 + "\n" + p2 + "\n"
  {
    var items := [Item(c0, p0, 0), Item(c1, p1, 0), Item(c2, p2, 0)];
    var none: string := [];
    assert items[1..][1..] == items[2..];
    assert items[2..][1..] == [];
    assert ItemFields(items[2..][1..]) == none;
    var f2 := c2 + "\n" + p2 + "\n";
    assert ItemFields(items[2..]) == f2 + none;
    var f1 := c1 + "\n" + p1 + "\n" + f2;
    assert ItemFields(items[1..]) == f1;
    assert ItemFields(items) == c0 + "\n" + p0 + "\n" + f1;
  }

  /** No field of the demonstration record contains its own terminator. */
  lemma DemoFieldsClean()
    ensures '|' !in "Ivan Ivanov "
    ensures '"' !in " 359 " && '"' !in "apples" && '"' !in " 90 " && '"' !in "coffee"
    ensures '"' !in " 30 " && '"' !in "legumes (peas, beans, peanuts)"
  {
  }

  lemma DemoWellFormed()
    ensures WellFormed(DemoRecord)
  {
    DemoFieldsClean();
    var items := DemoRecord.items;
    forall i | 0 <= i < |items| ensures ItemWellFormed(items[i]) {
      assert i == 0 || i == 1 || i == 2;
    }
  }

  /** The fixed input line is the rendering of the demonstration record, and
      its fields are the expected output. */
  lemma DemoRecordFacts()
    ensures WellFormed(DemoRecord) && Render(DemoRecord) == DemoInput
    ensures Fields(DemoRecord) == DemoOutput
  {
    DemoWellFormed();
    ThreeItemsRender("Ivan Ivanov ", " 359 ", "apples", " 90 ", "coffee", " 30 ", "legumes (peas, beans, peanuts)");
    ThreeItemsFields("Ivan Ivanov ", " 359 ", "apples", " 90 ", "coffee", " 30 ", "legumes (peas, beans, peanuts)");
  }

  /** The demonstration entry point, without the console output: the driver
      run on the fixed record finishes and yields one field per line, with
      the spaces around names and costs kept. */
  method Demonstrate() returns (r: Result<string>)
    ensures r == Ok(DemoOutput)
  {
    DemoRecordFacts();
    AcceptsRecord(DemoRecord);
    r := ParseRecord(DemoInput);
  }

  /** The smallest records: one item each. */
  lemma OneItemRecord(name: string, cost: string, product: string)
    requires '|' !in name && '"' !in cost && '"' !in product
    ensures Parse(name + "|" + cost + "\"" + product + "\"" + ".") ==
      Ok(name + "\n" + cost + "\n" + product + "\n")
  {
    var rec := Shop(name, [Item(cost, product, 0)], "");
    assert Spaces(0) == [];
    assert rec.items[1..] == [];
    var none: string := [];
    assert ItemFields(rec.items[1..]) == none;
    AcceptsRecord(rec);
    assert RenderItems(rec.items) == cost + "\"" + product + "\"" + none;
    assert Render(rec) == name + "|" + (cost + "\"" + product + "\"" + none) + "." + none;
    assert Fields(rec) == name + "\n" + (cost + "\n" + product + "\n" + none);
    assert Render(rec) == name + "|" + cost + "\"" + product + "\"" + ".";
    assert Fields(rec) == name + "\n" + cost + "\n" + product + "\n";
  }

  lemma OneItemExamples()
    ensures Parse("A|1\"x\".") == Ok("A\n1\nx\n")
    ensures Parse("Bob|5\"milk\".") == Ok("Bob\n5\nmilk\n")
  {
    OneItemRecord("A", "1", "x");
    assert "A" + "|" + "1" + "\"" + "x" + "\"" + "." == "A|1\"x\".";
    assert "A" + "\n" + "1" + "\n" + "x" + "\n" == "A\n1\nx\n";
    OneItemRecord("Bob", "5", "milk");
    assert "Bob" + "|" + "5" + "\"" + "milk" + "\"" + "." == "Bob|5\"milk\".";
    assert "Bob" + "\n" + "5" + "\n" + "milk" + "\n" == "Bob\n5\nmilk\n";
  }

  /** A letter where a delimiter is expected is reported with that letter. */
  lemma LetterAfterQuote()
    ensures Parse("A|1\"x\" y\"z\".") == Err(BadDelimiter('y'))
  {
    var rec := Shop("A", [Item("1", "x", 1)], "");
    assert Spaces(1) == " " by { assert Spaces(1) == Spaces(0) + " "; }
    RejectsBadDelimiter(rec, 'y', "\"z\".");
    assert Body(rec) + ['y'] + "\"z\"." == "A|1\"x\" y\"z\".";
  }

  /** An input that ends inside the product quotes is incomplete, stopped in
      ReadingProduct. */
  lemma OpenQuote()
    ensures Parse("A|1\"x") == Err(Incomplete(ReadingProduct))
  {
    ReadField(ReadingName, "A");
    ReadField(ReadingCost, "1");
    ReadField(ReadingProduct, "x");
    assert "A" + [Terminator(ReadingName)] == "A|";
    assert "1" + [Terminator(ReadingCost)] == "1\"";
    RunThen(ReadingName, "A|", "1\"", Config(ReadingCost, "A" + "\n"), Config(ReadingProduct, "1" + "\n"));
    RunThen(ReadingName, "A|" + "1\"", "x",
      Config(ReadingProduct, "A" + "\n" + ("1" + "\n")), Config(ReadingProduct, "x"));
    assert "A|" + "1\"" + "x" == "A|1\"x";
  }

  /** Text after the final period is trailing content. */
  lemma TextAfterPeriod()
    ensures Parse("A|1\"x\". ok") == Err(BadTrailing)
  {
    var rec := Shop("A", [Item("1", "x", 0)], " ");
    assert Spaces(0) == [];
    assert rec.items[1..] == [];
    RejectsTrailing(rec, 'o', "k");
    assert Render(rec) + ['o'] + "k" == "A|1\"x\". ok";
  }
}
