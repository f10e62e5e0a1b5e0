/**
 * The render surface: the container the spans and line breaks are appended
 * to, and the font size and colour set on it for a run.
 */
module Surface {
  import opened Text
  import opened Decomposer

  /** Once lines[..li] are built, with 0 < li < count, the break after line
      li - 1 is already on the canvas. */
  function PendingBreak(li: nat, count: nat): seq<Item> {
    if 0 < li < count then [Br] else []
  }

  /** The break appended after line `li`, unless it is the last. */
  function Trailing(li: nat, count: nat): seq<Item> {
    if li < count - 1 then [Br] else []
  }

  class Canvas {
    var items: seq<Item>
    var fontSize: int
    var color: string

    constructor ()
      ensures items == [] && fontSize == 48 && color == "#000000"
    {
      items := [];
      fontSize := 48;
      color := "#000000";
    }

    /** resetCanvas: the previous run's elements are discarded. */
    method Reset()
      modifies this
      ensures items == []
      ensures fontSize == old(fontSize) && color == old(color)
    {
      items := [];
    }

    /** buildSpansFromText: style the surface, then for each line append one
        invisible span per character, and a break between successive lines.
        Returns the spans array: the positions of the new spans, in order. */
    method BuildSpansFromText(text: string, size: int, colour: string) returns (spans: seq<nat>)
      modifies this
      ensures fontSize == size && color == colour
      ensures items == old(items) + Decompose(text)
      ensures spans == Positions(Decompose(text), |old(items)|)
    {
      fontSize := size;
      color := colour;
      var lines := Split(text);
      ghost var base := items;
      ghost var done: seq<Item> := [];
      spans := [];
      var li := 0;
      while li < |lines|
        invariant 0 <= li <= |lines|
        invariant fontSize == size && color == colour
        invariant done == Built(lines, li)
        invariant items == base + done && spans == Positions(done, |base|)
      {
        spans := BuildLine(lines, li, base, done, spans);
        LayoutStep(lines, li);
        done := done + LineItems(lines[li]) + Trailing(li, |lines|);
        li := li + 1;
      }
      assert lines[..li] == lines;
      assert done == Layout(lines);
      LayoutOfSplit(text);
    }

    /** The body of the lines.forEach callback: line `li`'s spans, then a
        break unless it is the last line. */
    method BuildLine(lines: seq<string>, li: nat, ghost base: seq<Item>, ghost done: seq<Item>,
                     spans0: seq<nat>)
      returns (spans: seq<nat>)
      requires li < |lines|
      requires items == base + done && spans0 == Positions(done, |base|)
      modifies this
      ensures items == base + (done + LineItems(lines[li]) + Trailing(li, |lines|))
      ensures spans == Positions(done + LineItems(lines[li]) + Trailing(li, |lines|), |base|)
      ensures fontSize == old(fontSize) && color == old(color)
    {
      var line := lines[li];
      spans := AppendLine(line, base, done, spans0);
      ghost var cur := done + LineItems(line);
      if li < |lines| - 1 {
        PositionsSnoc(cur, Br, |base|);
        items := items + [Br];
        assert items == base + (cur + [Br]);
      } else {
        assert cur + Trailing(li, |lines|) == cur;
      }
    }

    /** The inner loop of buildSpansFromText: one span per character of a line. */
    method AppendLine(line: string, ghost base: seq<Item>, ghost done: seq<Item>, spans0: seq<nat>)
      returns (spans: seq<nat>)
      requires items == base + done && spans0 == Positions(done, |base|)
      modifies this
      ensures items == base + (done + LineItems(line))
      ensures spans == Positions(done + LineItems(line), |base|)
      ensures fontSize == old(fontSize) && color == old(color)
    {
      spans := spans0;
      ghost var cur := done;
      var i := 0;
      assert LineItems(line[..0]) == [];
      while i < |line|
        invariant 0 <= i <= |line|
        invariant fontSize == old(fontSize) && color == old(color)
        invariant cur == done + LineItems(line[..i])
        invariant items == base + cur && spans == Positions(cur, |base|)
      {
        var ch := line[i];
        LineItemsSnoc(line, i);
        PositionsSnoc(cur, NewUnit(ch), |base|);
        spans := spans + [|items|];
        items := items + [NewUnit(ch)];
        cur := cur + [NewUnit(ch)];
        i := i + 1;
      }
      assert line[..i] == line;
    }
  }

  /** What the loop over lines has appended once lines[..li] are done. */
  function Built(lines: seq<string>, li: nat): seq<Item>
    requires li <= |lines|
  {
    Layout(lines[..li]) + PendingBreak(li, |lines|)
  }

  /** One round of the outer loop: line `li`'s units, then the break that
      follows it unless it is the last line. */
  lemma LayoutStep(lines: seq<string>, li: nat)
    requires li < |lines|
    ensures Built(lines, li) + LineItems(lines[li]) + Trailing(li, |lines|) == Built(lines, li + 1)
  {
    assert lines[..li + 1] == lines[..li] + [lines[li]];
    if li > 0 {
      LayoutSnoc(lines[..li], lines[li]);
    } else {
      assert lines[..1] == [lines[li]];
    }
  }
}
