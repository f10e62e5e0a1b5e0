/**
 * What the render surface holds after a text is decomposed: one Unit per
 * non-newline character (its final glyph, the glyph it currently displays,
 * whether it is visible) and one Br per '\n'.
 *
 * Decompose is the reference reading, character by character; Layout follows
 * the source's own structure (split into lines, units per line, a break
 * between successive lines), and LayoutOfSplit shows the two agree.
 */
module Decomposer {
  import opened Text

  datatype Item = Unit(final: char, displayed: char, visible: bool) | Br

  /** A freshly created span: final glyph = displayed glyph = c, opacity 0. */
  function NewUnit(c: char): Item {
    Unit(c, c, false)
  }

  function ItemOf(c: char): Item {
    if c == '\n' then Br else NewUnit(c)
  }

  /** The reference decomposition: each character on its own. */
  function Decompose(s: string): (items: seq<Item>)
    ensures |items| == |s|
  {
    if s == [] then [] else [ItemOf(s[0])] + Decompose(s[1..])
  }

  /** The spans built for one line, in order. */
  function LineItems(line: string): (r: seq<Item>)
    ensures |r| == |line|
  {
    if line == [] then [] else LineItems(line[..|line| - 1]) + [NewUnit(line[|line| - 1])]
  }

  /** The items for a list of lines: each line's units, a Br after
      every line but the last. */
  function Layout(lines: seq<string>): seq<Item>
    decreases |lines|
  {
    if |lines| == 0 then []
    else LineItems(lines[0]) + (if |lines| == 1 then [] else [Br] + Layout(lines[1..]))
  }

  /** The text an item sequence shows at rest: a unit's final glyph, '\n' for a break. */
  function Render(items: seq<Item>): string {
    if items == [] then []
    else (match items[0] case Unit(f, _, _) => [f] case Br => "\n") + Render(items[1..])
  }

  /** The final glyphs of the units, in order. */
  function Finals(items: seq<Item>): string {
    if items == [] then []
    else Finals(items[..|items| - 1])
         + (match items[|items| - 1] case Unit(f, _, _) => [f] case Br => [])
  }

  /** The number of line breaks. */
  function Breaks(items: seq<Item>): nat {
    if items == [] then 0
    else Breaks(items[..|items| - 1]) + (if items[|items| - 1].Br? then 1 else 0)
  }

  /** The spans array: the positions of the units, in order, where the items
      were appended to a surface already holding `offset` elements. */
  function Positions(items: seq<Item>, offset: nat): seq<nat> {
    if items == [] then []
    else Positions(items[..|items| - 1], offset)
         + (if items[|items| - 1].Unit? then [offset + |items| - 1] else [])
  }

  /** Appending one item extends the spans array by its position when it is a unit. */
  lemma PositionsSnoc(items: seq<Item>, x: Item, offset: nat)
    ensures Positions(items + [x], offset)
            == Positions(items, offset) + (if x.Unit? then [offset + |items|] else [])
  {
    assert (items + [x])[..|items|] == items;
  }

  /** A line's units with one more character. */
  lemma LineItemsSnoc(line: string, i: nat)
    requires i < |line|
    ensures LineItems(line[..i + 1]) == LineItems(line[..i]) + [NewUnit(line[i])]
  {
    assert line[..i + 1][..i] == line[..i];
  }

  /** Item k of the decomposition comes from character k alone. */
  lemma {:induction false} DecomposeAt(s: string)
    ensures forall k :: 0 <= k < |s| ==> Decompose(s)[k] == ItemOf(s[k])
  {
    if s != [] {
      DecomposeAt(s[1..]);
      forall k | 0 <= k < |s| ensures Decompose(s)[k] == ItemOf(s[k]) {
        if k > 0 { assert Decompose(s)[k] == Decompose(s[1..])[k - 1]; }
      }
    }
  }

  /** Every unit starts invisible, displaying its own final glyph; a blank line
      (two '\n' in a row) gives two breaks with nothing between them. */
  lemma FreshUnits(s: string)
    ensures forall k :: 0 <= k < |s| && s[k] != '\n' ==>
              Decompose(s)[k] == Unit(s[k], s[k], false)
    ensures forall k :: 0 <= k < |s| - 1 && s[k] == '\n' && s[k + 1] == '\n' ==>
              Decompose(s)[k] == Br && Decompose(s)[k + 1] == Br
  {
    DecomposeAt(s);
  }

  /** Mapping each unit back to its character and each Br to '\n' recovers the text. */
  lemma {:induction false} RenderDecompose(s: string)
    ensures Render(Decompose(s)) == s
  {
    if s != [] {
      RenderDecompose(s[1..]);
      assert Decompose(s)[1..] == Decompose(s[1..]);
    }
  }

  /** The other direction: a sequence of fresh units (none for '\n') and
      breaks is the decomposition of the text it renders. */
  lemma {:induction false} DecomposeRender(items: seq<Item>)
    requires forall k :: 0 <= k < |items| ==>
               items[k].Br? || (items[k] == NewUnit(items[k].final) && items[k].final != '\n')
    ensures Decompose(Render(items)) == items
  {
    if items != [] {
      DecomposeRender(items[1..]);
      var head := match items[0] case Unit(f, _, _) => [f] case Br => "\n";
      assert Render(items) == head + Render(items[1..]);
      assert (head + Render(items[1..]))[1..] == Render(items[1..]);
      assert items == [items[0]] + items[1..];
    }
  }

  lemma {:induction false} FinalsAppend(a: seq<Item>, b: seq<Item>)
    ensures Finals(a + b) == Finals(a) + Finals(b)
    ensures Breaks(a + b) == Breaks(a) + Breaks(b)
    decreases |b|
  {
    if b == [] {
      assert a + b == a;
    } else {
      var b' := b[..|b| - 1];
      FinalsAppend(a, b');
      assert (a + b)[..|a + b| - 1] == a + b';
    }
  }

  /** The units' final glyphs are the text without its newlines, and there
      is one break per newline. */
  lemma {:induction false} DecomposeCounts(s: string)
    ensures Finals(Decompose(s)) == Remove(s, '\n')
    ensures Breaks(Decompose(s)) == Count(s, '\n')
    ensures |Finals(Decompose(s))| == |s| - Count(s, '\n')
  {
    if s != [] {
      DecomposeCounts(s[1..]);
      FinalsAppend([ItemOf(s[0])], Decompose(s[1..]));
      assert [ItemOf(s[0])][..0] == [];
    }
  }

  /** The spans array of a sequence of items: one position per unit, strictly
      increasing (so in source order), each naming a unit whose final glyph is
      the corresponding entry of Finals, and no unit is left out. */
  lemma {:induction false} PositionsSpec(items: seq<Item>, offset: nat)
    ensures |Positions(items, offset)| == |Finals(items)|
    ensures forall i :: 0 <= i < |Positions(items, offset)| ==>
              offset <= Positions(items, offset)[i] < offset + |items|
              && items[Positions(items, offset)[i] - offset].Unit?
              && items[Positions(items, offset)[i] - offset].final == Finals(items)[i]
    ensures forall i, j :: 0 <= i < j < |Positions(items, offset)| ==>
              Positions(items, offset)[i] < Positions(items, offset)[j]
    ensures forall k :: 0 <= k < |items| && items[k].Unit? ==> offset + k in Positions(items, offset)
  {
    if items != [] {
      var n := |items|;
      var init := items[..n - 1];
      PositionsSpec(init, offset);
      assert items == init + [items[n - 1]];
      PositionsSnoc(init, items[n - 1], offset);
      forall k | 0 <= k < n - 1 ensures items[k] == init[k] { }
    }
  }

  /** One span per non-newline character of the text. */
  lemma SpanCount(s: string)
    ensures |Positions(Decompose(s), 0)| == |Remove(s, '\n')|
  {
    PositionsSpec(Decompose(s), 0);
    DecomposeCounts(s);
  }

  lemma {:induction false} LayoutSnoc(lines: seq<string>, line: string)
    requires |lines| > 0
    ensures Layout(lines + [line]) == Layout(lines) + [Br] + LineItems(line)
    decreases |lines|
  {
    if |lines| == 1 {
      assert (lines + [line])[1..] == [line];
    } else {
      assert (lines + [line])[1..] == lines[1..] + [line];
      LayoutSnoc(lines[1..], line);
    }
  }

  lemma {:induction false} LayoutHead(line: string, rest: seq<string>)
    requires |rest| > 0
    ensures Layout([line] + rest) == LineItems(line) + [Br] + Layout(rest)
  {
    assert ([line] + rest)[1..] == rest;
  }

  /** Building line by line, as the source does, gives the character-by-character
      decomposition. */
  lemma {:induction false} LayoutOfSplit(s: string)
    ensures Layout(Split(s)) == Decompose(s)
  {
    if s != [] {
      LayoutOfSplit(s[1..]);
      if s[0] == '\n' {
        LayoutNewline(Split(s[1..]));
      } else {
        var rest := Split(s[1..]);
        LayoutGlyph(s[0], rest[0], rest[1..]);
        assert [rest[0]] + rest[1..] == rest;
      }
    }
  }

  /** A text starting with '\n' starts with an empty line. */
  lemma LayoutNewline(rest: seq<string>)
    requires |rest| > 0
    ensures Layout([[]] + rest) == [Br] + Layout(rest)
  {
    LayoutHead([], rest);
    assert LineItems([]) == [];
  }

  /** A text starting with another character has it at the front of its first line. */
  lemma LayoutGlyph(c: char, line: string, tail: seq<string>)
    ensures Layout([[c] + line] + tail) == [NewUnit(c)] + Layout([line] + tail)
  {
    LayoutCons([c] + line, tail);
    LayoutCons(line, tail);
    LineItemsCons(c, line);
  }

  lemma LayoutCons(line: string, tail: seq<string>)
    ensures Layout([line] + tail) == LineItems(line) + (if tail == [] then [] else [Br] + Layout(tail))
  {
    assert ([line] + tail)[1..] == tail;
  }

  lemma {:induction false} LineItemsCons(c: char, line: string)
    ensures LineItems([c] + line) == [NewUnit(c)] + LineItems(line)
  {
    if line != [] {
      var init := line[..|line| - 1];
      LineItemsCons(c, init);
      assert ([c] + line)[..|line|] == [c] + init;
    }
  }
}
