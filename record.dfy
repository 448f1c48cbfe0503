/** The record format the scanner accepts, written as data: a customer name,
    one or more items of a cost and a quoted product, and an ending period
    followed only by line space. The theorems here say that the driver accepts
    exactly the renderings of well-formed records and then prints one field
    per line. */
module Record {
  import opened Scanner
  import opened Driver

  /** One purchase: the cost text before the opening quote, the product text
      between the quotes, and the spaces between the closing quote and the
      next delimiter. */
  datatype Item = Item(cost: string, product: string, pad: nat)

  /** One record: the name before the pipe, the items, and what follows the
      final period. */
  datatype Shop = Shop(name: string, items: seq<Item>, trailer: string)

  predicate ItemWellFormed(it: Item) {
    '"' !in it.cost && '"' !in it.product
  }

  predicate ItemsWellFormed(items: seq<Item>) {
    |items| > 0 && forall i :: 0 <= i < |items| ==> ItemWellFormed(items[i])
  }

  predicate TrailerWellFormed(w: string) {
    forall i :: 0 <= i < |w| ==> IsLineSpace(w[i])
  }

  predicate WellFormed(rec: Shop) {
    '|' !in rec.name && ItemsWellFormed(rec.items) && TrailerWellFormed(rec.trailer)
  }

  function RenderItem(it: Item): string {
    it.cost + "\"" + it.product + "\"" + Spaces(it.pad)
  }

  /** The items separated by commas. */
  function RenderItems(items: seq<Item>): string
    requires |items| > 0
  {
    if |items| == 1 then RenderItem(items[0])
    else RenderItem(items[0]) + "," + RenderItems(items[1..])
  }

  /** The record up to, but not including, the final period. */
  function Body(rec: Shop): string
    requires |rec.items| > 0
  {
    rec.name + "|" + RenderItems(rec.items)
  }

  /** The input line of a record. */
  function Render(rec: Shop): string
    requires |rec.items| > 0
  {
    Body(rec) + "." + rec.trailer
  }

  /** Cost and product of each item, each followed by a line break. */
  function ItemFields(items: seq<Item>): string {
    if items == [] then []
    else items[0].cost + "\n" + items[0].product + "\n" + ItemFields(items[1..])
  }

  /** The expected output: name, then cost and product of every item, one
      per line. */
  function Fields(rec: Shop): string {
    rec.name + "\n" + ItemFields(rec.items)
  }

  /** One item takes the scanner from ReadingCost back to the delimiter state
      and writes its cost and product lines. */
  lemma ScanItem(it: Item)
    requires ItemWellFormed(it)
    ensures Run(ReadingCost, RenderItem(it)) ==
      Ok(Config(ReadingDelimiter, it.cost + "\n" + it.product + "\n"))
  {
    ReadField(ReadingCost, it.cost);
    ReadField(ReadingProduct, it.product);
    SkipSpaces(it.pad);
    var cost := it.cost + "\"";
    var product := it.product + "\"";
    RunThen(ReadingCost, cost, product,
      Config(ReadingProduct, it.cost + "\n"), Config(ReadingDelimiter, it.product + "\n"));
    RunThen(ReadingCost, cost + product, Spaces(it.pad),
      Config(ReadingDelimiter, it.cost + "\n" + (it.product + "\n")), Config(ReadingDelimiter, []));
    assert cost + product + Spaces(it.pad) == RenderItem(it);
    assert it.cost + "\n" + (it.product + "\n") + [] == it.cost + "\n" + it.product + "\n";
  }

  /** A well-formed item list takes ReadingCost to the delimiter state and
      writes the item fields. */
  lemma {:induction false} ScanItemsOpen(items: seq<Item>)
    requires ItemsWellFormed(items)
    ensures Run(ReadingCost, RenderItems(items)) == Ok(Config(ReadingDelimiter, ItemFields(items)))
    decreases |items|
  {
    var it := items[0];
    ScanItem(it);
    var fields := it.cost + "\n" + it.product + "\n";
    if |items| == 1 {
      assert items[1..] == [];
      assert ItemFields(items[1..]) == [];
      assert ItemFields(items) == fields;
    } else {
      var more := items[1..];
      assert ItemsWellFormed(more) by {
        forall i | 0 <= i < |more| ensures ItemWellFormed(more[i]) {
          assert more[i] == items[i + 1];
        }
      }
      ScanItemsOpen(more);
      RunCons(ReadingDelimiter, ',', RenderItems(more));
      assert Run(ReadingDelimiter, [','] + RenderItems(more)) ==
        Ok(Config(ReadingDelimiter, ItemFields(more))) by {
        assert [] + ItemFields(more) == ItemFields(more);
      }
      RunThen(ReadingCost, RenderItem(it), [','] + RenderItems(more),
        Config(ReadingDelimiter, fields), Config(ReadingDelimiter, ItemFields(more)));
      assert RenderItem(it) + ([','] + RenderItems(more)) == RenderItems(items);
    }
  }

  /** The item list with its final period and trailer takes ReadingCost to
      Finished and writes the item fields. */
  lemma ScanItems(items: seq<Item>, trailer: string)
    requires ItemsWellFormed(items) && TrailerWellFormed(trailer)
    ensures Run(ReadingCost, RenderItems(items) + "." + trailer) ==
      Ok(Config(Finished, ItemFields(items)))
  {
    ScanItemsOpen(items);
    FinishedAbsorbs(trailer);
    RunCons(ReadingDelimiter, '.', trailer);
    var none: string := [];
    assert none + none == none;
    assert Run(ReadingDelimiter, ['.'] + trailer) == Ok(Config(Finished, none + none));
    RunThen(ReadingCost, RenderItems(items), ['.'] + trailer,
      Config(ReadingDelimiter, ItemFields(items)), Config(Finished, []));
    assert RenderItems(items) + (['.'] + trailer) == RenderItems(items) + "." + trailer;
    assert ItemFields(items) + none == ItemFields(items);
  }

  /** The body of a well-formed record leaves the scanner in the delimiter
      state, waiting for the final period, with every field written. */
  lemma ScanBody(rec: Shop)
    requires WellFormed(rec)
    ensures Run(ReadingName, Body(rec)) == Ok(Config(ReadingDelimiter, Fields(rec)))
  {
    ReadField(ReadingName, rec.name);
    ScanItemsOpen(rec.items);
    RunThen(ReadingName, rec.name + "|", RenderItems(rec.items),
      Config(ReadingCost, rec.name + "\n"), Config(ReadingDelimiter, ItemFields(rec.items)));
  }

  /** Completeness: the driver accepts every well-formed record and prints
      its fields one per line. */
  lemma AcceptsRecord(rec: Shop)
    requires WellFormed(rec)
    ensures Parse(Render(rec)) == Ok(Fields(rec))
  {
    ReadField(ReadingName, rec.name);
    ScanItems(rec.items, rec.trailer);
    RunThen(ReadingName, rec.name + "|", RenderItems(rec.items) + "." + rec.trailer,
      Config(ReadingCost, rec.name + "\n"), Config(Finished, ItemFields(rec.items)));
    assert rec.name + "|" + (RenderItems(rec.items) + "." + rec.trailer) == Render(rec);
  }

  /** The cost and product fields at the front of an input that takes
      ReadingCost to Finished. */
  lemma AcceptedFields(input: string, out: string) returns (cost: string, product: string, rest: string, restOut: string)
    requires Run(ReadingCost, input) == Ok(Config(Finished, out))
    ensures '"' !in cost && '"' !in product
    ensures input == cost + "\"" + product + "\"" + rest
    ensures out == cost + "\n" + product + "\n" + restOut
    ensures Run(ReadingDelimiter, rest) == Ok(Config(Finished, restOut))
  {
    var k1, out1 := SplitField(ReadingCost, input, Config(Finished, out));
    var rest1 := input[k1 + 1..];
    cost := input[..k1];
    assert input == cost + "\"" + rest1;
    var k2, out2 := SplitField(ReadingProduct, rest1, Config(Finished, out1));
    product, rest, restOut := rest1[..k2], rest1[k2 + 1..], out2;
    assert rest1 == product + "\"" + rest;
  }

  /** The first item of an input that takes ReadingCost to Finished: its
      rendering, the delimiter after it and the rest scanned from the state
      that delimiter leads to. */
  lemma AcceptedItem(input: string, out: string) returns (it: Item, sep: char, rest: string, restOut: string)
    requires Run(ReadingCost, input) == Ok(Config(Finished, out))
    ensures ItemWellFormed(it) && (sep == '.' || sep == ',')
    ensures input == RenderItem(it) + ([sep] + rest)
    ensures out == it.cost + "\n" + it.product + "\n" + restOut
    ensures Run(if sep == '.' then Finished else ReadingCost, rest) == Ok(Config(Finished, restOut))
  {
    var cost, product, rest2, out2 := AcceptedFields(input, out);
    var pad, _ := SplitDelimiter(rest2, Config(Finished, out2));
    sep, rest, restOut := rest2[pad], rest2[pad + 1..], out2;
    it := Item(cost, product, pad);
    assert rest2 == Spaces(pad) + ([sep] + rest);
  }

  /** Soundness of the item list: whatever takes ReadingCost to Finished is
      a rendered item list with its period and trailer. */
  lemma {:induction false} AcceptedItems(input: string, out: string) returns (items: seq<Item>, trailer: string)
    requires Run(ReadingCost, input) == Ok(Config(Finished, out))
    ensures ItemsWellFormed(items) && TrailerWellFormed(trailer)
    ensures input == RenderItems(items) + "." + trailer
    ensures out == ItemFields(items)
    decreases |input|
  {
    var it, sep, rest, restOut := AcceptedItem(input, out);
    if sep == '.' {
      FinishedAbsorbs(rest);
      items, trailer := [it], rest;
      assert items[1..] == [];
      assert ItemFields(items) == it.cost + "\n" + it.product + "\n" + [];
    } else {
      var more;
      more, trailer := AcceptedItems(rest, restOut);
      items := [it] + more;
      assert items[1..] == more;
      assert forall i :: 1 <= i < |items| ==> items[i] == more[i - 1];
    }
  }

  /** Soundness: whatever the driver accepts is the rendering of a
      well-formed record, and the output is that record's fields. */
  lemma AcceptedRecord(input: string, out: string) returns (rec: Shop)
    requires Parse(input) == Ok(out)
    ensures WellFormed(rec) && Render(rec) == input && Fields(rec) == out
  {
    var k, restOut := SplitField(ReadingName, input, Run(ReadingName, input).value);
    var items, trailer := AcceptedItems(input[k + 1..], restOut);
    rec := Shop(input[..k], items, trailer);
    assert input == input[..k] + "|" + input[k + 1..];
  }

  /** The driver accepts an input exactly when it is a well-formed record,
      and then its output is determined by that record. */
  lemma AcceptsExactlyRecords(input: string)
    ensures Parse(input).Ok? <==> exists rec :: WellFormed(rec) && Render(rec) == input
    ensures forall rec :: WellFormed(rec) && Render(rec) == input ==> Parse(input) == Ok(Fields(rec))
  {
    if Parse(input).Ok? {
      var rec := AcceptedRecord(input, Parse(input).value);
    }
    forall rec | WellFormed(rec) && Render(rec) == input
      ensures Parse(input) == Ok(Fields(rec))
    {
      AcceptsRecord(rec);
    }
  }

  /** A character other than a delimiter after a closing quote rejects the
      record with that character, whatever follows. */
  lemma RejectsBadDelimiter(rec: Shop, c: char, rest: string)
    requires WellFormed(rec) && !IsDelimiter(c)
    ensures Parse(Body(rec) + [c] + rest) == Err(BadDelimiter(c))
  {
    ScanBody(rec);
    RunConcat(ReadingName, Body(rec), [c]);
    assert [c][..0] == [];
    AbortIsFinal(ReadingName, Body(rec) + [c], rest);
  }

  /** Anything but line space after the final period rejects the record,
      whatever follows. */
  lemma RejectsTrailing(rec: Shop, c: char, rest: string)
    requires WellFormed(rec) && !IsLineSpace(c)
    ensures Parse(Render(rec) + [c] + rest) == Err(BadTrailing)
  {
    AcceptsRecord(rec);
    assert (Render(rec) + [c])[..|Render(rec)|] == Render(rec);
    AbortIsFinal(ReadingName, Render(rec) + [c], rest);
  }

  /** Any input cut off before the final period of a well-formed record (in
      a name, a cost, inside the quotes or before the delimiter) is rejected
      as incomplete. */
  lemma RejectsTruncated(rec: Shop, n: nat)
    requires WellFormed(rec) && n <= |Body(rec)|
    ensures Parse(Render(rec)[..n]).Err? && Parse(Render(rec)[..n]).error.Incomplete?
  {
    var body := Body(rec);
    assert Render(rec)[..n] == body[..n];
    assert body == body[..n] + body[n..];
    ScanBody(rec);
    RunConcat(ReadingName, body[..n], body[n..]);
    var mid := Run(ReadingName, body[..n]);
    if mid.Ok? && mid.value.state.Finished? {
      FinishedAbsorbs(body[n..]);
    }
  }

  function Count(c: char, s: string): nat {
    if s == [] then 0 else (if s[0] == c then 1 else 0) + Count(c, s[1..])
  }

  lemma {:induction false} CountConcat(c: char, a: string, b: string)
    ensures Count(c, a + b) == Count(c, a) + Count(c, b)
    decreases |a|
  {
    if a == [] {
      assert a + b == b;
    } else {
      assert (a + b)[1..] == a[1..] + b;
      CountConcat(c, a[1..], b);
    }
  }

  /** When no field contains a line break, the output of a record with k
      items has exactly 2k + 1 lines. */
  lemma {:induction false} LineCount(rec: Shop)
    requires '\n' !in rec.name
    requires forall i :: 0 <= i < |rec.items| ==> '\n' !in rec.items[i].cost && '\n' !in rec.items[i].product
    ensures Count('\n', Fields(rec)) == 2 * |rec.items| + 1
    decreases |rec.items|
  {
    NoBreakCount(rec.name);
    CountConcat('\n', rec.name, "\n");
    CountConcat('\n', rec.name + "\n", ItemFields(rec.items));
    if rec.items != [] {
      var it := rec.items[0];
      var rest := Shop(rec.name, rec.items[1..], rec.trailer);
      assert forall i :: 0 <= i < |rest.items| ==> rest.items[i] == rec.items[i + 1];
      LineCount(rest);
      NoBreakCount(it.cost);
      NoBreakCount(it.product);
      CountConcat('\n', it.cost, "\n");
      CountConcat('\n', it.cost + "\n", it.product);
      CountConcat('\n', it.cost + "\n" + it.product, "\n");
      CountConcat('\n', it.cost + "\n" + it.product + "\n", ItemFields(rest.items));
      CountConcat('\n', rec.name, "\n");
      CountConcat('\n', rec.name + "\n", ItemFields(rest.items));
    }
  }

  lemma {:induction false} NoBreakCount(s: string)
    requires '\n' !in s
    ensures Count('\n', s) == 0
    decreases |s|
  {
    if s != [] {
      NoBreakCount(s[1..]);
    }
  }
}
