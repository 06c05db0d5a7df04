/** What text on the display looks like, in plain numbers. */
module OledText {
  import opened Options
  import opened Utf8
  import opened Oled

  // ---------------------------------------------------------------- one glyph

  /** A bit of a byte, counted from the left. */
  predicate BitFromLeft(b: bv8, i: nat)
    requires i < 8
  {
    (b >> (7 - i)) & 1 == 1
  }

  lemma MaskIsShift(b: bv8, col: nat)
    requires col < 8
    ensures AsciiBit(b, col) <==> BitFromLeft(b, col)
  {
    if col == 0 {} else if col == 1 {} else if col == 2 {} else if col == 3 {}
    else if col == 4 {} else if col == 5 {} else if col == 6 {} else {}
  }

  /** The pixels of a glyph, from the upper left: a narrow one has a byte for each row, its leftmost
      pixel the highest bit; a wide one has two; a missing one is a square with its diagonals. */
  lemma GlyphExactly(font: Font, cp: bv32, row: nat, col: nat)
    requires row < 16 && col < if cp < 0x80 then 8 else 16
    ensures cp < 0x80 ==> (GlyphBit(font, cp, row, col) <==> BitFromLeft(font.ascii((cp & 0xFF) as bv8, row), col))
    ensures cp >= 0x80 && font.hasWide(cp) && col < 8 ==>
      (GlyphBit(font, cp, row, col) <==> BitFromLeft(font.wide(cp, 2 * row), col))
    ensures cp >= 0x80 && font.hasWide(cp) && col >= 8 ==>
      (GlyphBit(font, cp, row, col) <==> BitFromLeft(font.wide(cp, 2 * row + 1), col - 8))
    ensures cp >= 0x80 && !font.hasWide(cp) ==>
      (GlyphBit(font, cp, row, col) <==> row in {0, 15} || col in {0, 15} || col == row || col == 15 - row)
  {
    hide AsciiBit, BitFromLeft;
    if cp < 0x80 {
      MaskIsShift(font.ascii((cp & 0xFF) as bv8, row), col);
    } else if col < 8 {
      MaskIsShift(font.wide(cp, 2 * row), col);
    } else {
      MaskIsShift(font.wide(cp, 2 * row + 1), col - 8);
    }
  }

  // ---------------------------------------------------------------- where glyphs go

  /** The width of a glyph. */
  function Width(cp: bv32): int {
    if cp < 0x80 then 8 else 16
  }

  /** One character of a text with the cursor at (cx, cy), started in column x. A newline goes to the
      start column of the next row of glyphs. A glyph goes at the cursor if it fits before column 128,
      else at the start of the next row, if it fits above row 64 there; else the text ends. */
  lemma CharacterExactly(s: Text, x: int, cx: int, cy: int)
    requires NoNul(s) && Next(s).Char?
    ensures var cp, rest, all := Next(s).cp, s[Next(s).length..], Layout(s, x, cx, cy);
      && (cp == 10 ==> all == Layout(rest, x, x, cy + 16))
      && (cp != 10 && cx + Width(cp) <= 128 && cy + 16 <= 64 ==>
            all.cells == [Cell(cx, cy, cp)] + Layout(rest, x, cx + Width(cp), cy).cells &&
            all.ok == Layout(rest, x, cx + Width(cp), cy).ok)
      && (cp != 10 && cx + Width(cp) > 128 && cy + 32 <= 64 ==>
            all.cells == [Cell(x, cy + 16, cp)] + Layout(rest, x, x + Width(cp), cy + 16).cells &&
            all.ok == Layout(rest, x, x + Width(cp), cy + 16).ok)
      && (cp != 10 && cy + (if cx + Width(cp) > 128 then 32 else 16) > 64 ==> all == Plan([], true))
  {
    hide Next;
  }

  lemma EndExactly(s: Text, x: int, cx: int, cy: int)
    requires NoNul(s)
    ensures Next(s).End? ==> Layout(s, x, cx, cy) == Plan([], true)
    ensures Next(s).Malformed? ==> Layout(s, x, cx, cy) == Plan([], false)
  {
  }

  /** The code points of a text that have a glyph. */
  function Visible(cps: seq<bv32>): seq<bv32> {
    if cps == [] then [] else (if cps[0] == 10 then [] else [cps[0]]) + Visible(cps[1..])
  }

  function Spelled(cells: seq<Cell>): (r: seq<bv32>)
    ensures |r| == |cells| && forall i :: 0 <= i < |cells| ==> r[i] == cells[i].cp
  {
    seq(|cells|, i requires 0 <= i < |cells| => cells[i].cp)
  }

  /** The glyphs spell the text, from its beginning as far as there is room; a text without malformed
      sequences is drawn without error. */
  lemma {:induction false} CellsSpellText(s: Text, x: int, cx: int, cy: int)
    requires NoNul(s) && DecodeAll(s).Some?
    ensures var plan := Layout(s, x, cx, cy); plan.ok && Spelled(plan.cells) <= Visible(DecodeAll(s).value)
    decreases |s|
  {
    hide Next, DecodeAll, Visible, Spelled, Layout;
    if s == [] {
      NothingSpelled(x, cx, cy);
    } else {
      DecodeAllSteps(s);
      CharacterExactly(s, x, cx, cy);
      var cp, rest := Next(s).cp, s[Next(s).length..];
      VisibleCons(cp, DecodeAll(rest).value);
      if cp == 10 {
        CellsSpellText(rest, x, x, cy + 16);
      } else if cx + Width(cp) <= 128 && cy + 16 <= 64 {
        CellsSpellText(rest, x, cx + Width(cp), cy);
        SpelledCons(Cell(cx, cy, cp), Layout(rest, x, cx + Width(cp), cy).cells, Visible(DecodeAll(rest).value));
      } else if cx + Width(cp) > 128 && cy + 32 <= 64 {
        CellsSpellText(rest, x, x + Width(cp), cy + 16);
        SpelledCons(Cell(x, cy + 16, cp), Layout(rest, x, x + Width(cp), cy + 16).cells,
                    Visible(DecodeAll(rest).value));
      } else {
        assert Spelled([]) == [];
      }
    }
  }

  lemma NothingSpelled(x: int, cx: int, cy: int)
    ensures NoNul([]) && Layout([], x, cx, cy) == Plan([], true) && Spelled([]) == []
    ensures DecodeAll([]) == Some([]) && Visible([]) == []
  {
    EndExactly([], x, cx, cy);
    AcceptsExactly([]);
  }

  lemma VisibleCons(cp: bv32, cps: seq<bv32>)
    ensures Visible([cp] + cps) == (if cp == 10 then [] else [cp]) + Visible(cps)
  {
    assert ([cp] + cps)[1..] == cps;
  }

  lemma SpelledCons(c: Cell, cells: seq<Cell>, visible: seq<bv32>)
    requires Spelled(cells) <= visible
    ensures Spelled([c] + cells) <= [c.cp] + visible
  {
    assert Spelled([c] + cells) == [c.cp] + Spelled(cells);
  }
}
