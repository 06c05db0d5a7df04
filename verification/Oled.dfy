/** The framebuffer and the text layout of src/oled.c. */
module Oled {
  import opened Utf8

  const WIDTH: nat := 128
  const HEIGHT: nat := 64
  const SIZE: nat := 1024

  predicate OnScreen(x: int, y: int) {
    0 <= x < WIDTH && 0 <= y < HEIGHT
  }

  // ---------------------------------------------------------------- pixels in bytes

  function Mask(k: nat): bv8
    requires k < 8
  {
    if k == 0 then 0x01 else if k == 1 then 0x02 else if k == 2 then 0x04 else if k == 3 then 0x08
    else if k == 4 then 0x10 else if k == 5 then 0x20 else if k == 6 then 0x40 else 0x80
  }

  predicate Bit(b: bv8, k: nat)
    requires k < 8
  {
    b & Mask(k) != 0
  }

  function Index(x: nat, y: nat): (i: nat)
    requires OnScreen(x, y)
    ensures i < SIZE
  {
    x + (y / 8) * WIDTH
  }

  /** The (byte, bit) position determines the pixel. */
  lemma PixelPosition(x: nat, y: nat, x': nat, y': nat)
    requires OnScreen(x, y) && OnScreen(x', y')
    ensures Index(x, y) == Index(x', y') && y % 8 == y' % 8 <==> x == x' && y == y'
  {
  }

  lemma SetBit(b: bv8, k: nat, j: nat)
    requires k < 8 && j < 8
    ensures Bit(b | Mask(k), j) == (j == k || Bit(b, j))
  {
  }

  lemma ClearBit(b: bv8, k: nat, j: nat)
    requires k < 8 && j < 8
    ensures Bit(b & !Mask(k), j) == (j != k && Bit(b, j))
  {
  }

  /** A frame as the eye sees it. */
  predicate Shows(frame: Frame, x: nat, y: nat)
    requires OnScreen(x, y)
  {
    Bit(frame[Index(x, y)], y % 8)
  }

  type Frame = f: seq<bv8> | |f| == SIZE witness seq(SIZE, _ => 0)

  /** A byte with one bit set or cleared. */
  function WithBit(b: bv8, k: nat, enabled: bool): bv8
    requires k < 8
  {
    if enabled then b | Mask(k) else b & !Mask(k)
  }

  lemma ByteShows(b: bv8, k: nat, enabled: bool, j: nat)
    requires k < 8 && j < 8
    ensures Bit(WithBit(b, k, enabled), j) == if j == k then enabled else Bit(b, j)
  {
    hide Mask, Bit;
    SetBit(b, k, j);
    ClearBit(b, k, j);
  }

  /** The frame with one pixel set or cleared; off the screen nothing happens. */
  function WithPixel(frame: Frame, x: int, y: int, enabled: bool): Frame {
    if !OnScreen(x, y) then frame
    else
      var i := Index(x, y);
      frame[i := WithBit(frame[i], y % 8, enabled)]
  }

  /** Exactly that pixel changes. */
  lemma WithPixelShows(frame: Frame, x: int, y: int, enabled: bool, px: nat, py: nat)
    requires OnScreen(px, py)
    ensures Shows(WithPixel(frame, x, y, enabled), px, py) ==
      if px == x && py == y then enabled else Shows(frame, px, py)
  {
    hide Mask, Bit, WithBit;
    if OnScreen(x, y) {
      PixelPosition(x, y, px, py);
      ByteShows(frame[Index(x, y)], y % 8, enabled, py % 8);
    }
  }

  // ---------------------------------------------------------------- glyphs

  /** The font tables: row bytes of an ASCII glyph, and the 32 bytes of a wide one if it exists. */
  datatype Font = Font(ascii: (bv8, nat) -> bv8, hasWide: bv32 -> bool, wide: (bv32, nat) -> bv8)

  function GlyphWidth(cp: bv32): nat {
    if cp < 0x80 then 8 else 16
  }

  predicate AsciiBit(bits: bv8, col: nat)
    requires col < 8
  {
    Bit(bits, 7 - col)
  }

  predicate MissingBit(row: nat, col: nat) {
    row == 0 || row == 15 || col == 0 || col == 15 || row == col || row + col == 15
  }

  /** Pixel (col, row) of the glyph drawn for a code point. */
  predicate GlyphBit(font: Font, cp: bv32, row: nat, col: nat)
    requires row < 16 && col < GlyphWidth(cp)
  {
    if cp < 0x80 then AsciiBit(font.ascii((cp & 0xFF) as bv8, row), col)
    else if font.hasWide(cp) then
      if col < 8 then AsciiBit(font.wide(cp, row * 2), col) else AsciiBit(font.wide(cp, row * 2 + 1), col - 8)
    else MissingBit(row, col)
  }

  lemma ShiftMask(col: nat)
    requires col < 8
    ensures (0x80 as bv8) >> col == Mask(7 - col)
  {
    if col == 0 {} else if col == 1 {} else if col == 2 {} else if col == 3 {}
    else if col == 4 {} else if col == 5 {} else if col == 6 {} else {}
  }

  /** Two font bytes as the 16-bit row of `oled_draw_zh16`. */
  function Joined(a: bv8, b: bv8): bv16 {
    ((a as bv16) << 8) | (b as bv16)
  }

  lemma JoinedHigh(a: bv8, b: bv8, m: bv8)
    ensures Joined(a, b) & ((m as bv16) << 8) != 0 <==> a & m != 0
  {
  }

  lemma JoinedLow(a: bv8, b: bv8, m: bv8)
    ensures Joined(a, b) & (m as bv16) != 0 <==> b & m != 0
  {
  }

  lemma WideMaskHigh(col: nat)
    requires col < 8
    ensures (0x8000 as bv16) >> col == (Mask(7 - col) as bv16) << 8
  {
    if col == 0 {} else if col == 1 {} else if col == 2 {} else if col == 3 {}
    else if col == 4 {} else if col == 5 {} else if col == 6 {} else {}
  }

  lemma WideMaskLow(col: nat)
    requires 8 <= col < 16
    ensures (0x8000 as bv16) >> col == Mask(15 - col) as bv16
  {
    if col == 8 {} else if col == 9 {} else if col == 10 {} else if col == 11 {}
    else if col == 12 {} else if col == 13 {} else if col == 14 {} else {}
  }

  /** The bit test of the three drawing loops. */
  method GlyphPixel(font: Font, cp: bv32, row: nat, col: nat) returns (enabled: bool)
    requires row < 16 && col < GlyphWidth(cp)
    ensures enabled == GlyphBit(font, cp, row, col)
  {
    if cp < 0x80 {
      var bits := font.ascii((cp & 0xFF) as bv8, row);
      ShiftMask(col);
      enabled := bits & ((0x80 as bv8) >> col) != 0;
    } else if !font.hasWide(cp) {
      var border := row == 0 || row == 15 || col == 0 || col == 15;
      var cross := row == col || row + col == 15;
      enabled := border || cross;
    } else {
      var high, low := font.wide(cp, row * 2), font.wide(cp, row * 2 + 1);
      enabled := WideBit(high, low, col);
    }
  }

  lemma WideHigh(high: bv8, low: bv8, col: nat)
    requires col < 8
    ensures Joined(high, low) & ((0x8000 as bv16) >> col) != 0 <==> AsciiBit(high, col)
  {
    WideMaskHigh(col);
    JoinedHigh(high, low, Mask(7 - col));
    hide Mask, Joined;
  }

  lemma WideLow(high: bv8, low: bv8, col: nat)
    requires 8 <= col < 16
    ensures Joined(high, low) & ((0x8000 as bv16) >> col) != 0 <==> AsciiBit(low, col - 8)
  {
    WideMaskLow(col);
    JoinedLow(high, low, Mask(15 - col));
    hide Mask, Joined;
  }

  method WideBit(high: bv8, low: bv8, col: nat) returns (enabled: bool)
    requires col < 16
    ensures enabled == if col < 8 then AsciiBit(high, col) else AsciiBit(low, col - 8)
  {
    hide Mask, Joined, AsciiBit;
    enabled := Joined(high, low) & ((0x8000 as bv16) >> col) != 0;
    if col < 8 {
      WideHigh(high, low, col);
    } else {
      WideLow(high, low, col);
    }
  }

  /** A glyph and the place of its upper left corner. */
  datatype Cell = Cell(x: int, y: int, cp: bv32)

  predicate Contains(c: Cell, x: int, y: int) {
    c.x <= x < c.x + GlyphWidth(c.cp) && c.y <= y < c.y + 16
  }

  predicate CellShows(font: Font, c: Cell, x: int, y: int)
    requires Contains(c, x, y)
  {
    GlyphBit(font, c.cp, y - c.y, x - c.x)
  }

  /** What a frame shows after the cells are drawn over it in order. */
  predicate Painted(font: Font, frame: Frame, cells: seq<Cell>, x: nat, y: nat)
    requires OnScreen(x, y)
    decreases |cells|
  {
    if cells == [] then Shows(frame, x, y)
    else
      var c := cells[|cells| - 1];
      if Contains(c, x, y) then CellShows(font, c, x, y) else Painted(font, frame, cells[..|cells| - 1], x, y)
  }

  // ---------------------------------------------------------------- layout

  /** The glyphs a text puts on the screen, and whether it was decoded without error. */
  datatype Plan = Plan(cells: seq<Cell>, ok: bool)

  /** Where a glyph of this width goes: wrap to the start column when it does not fit. */
  function Wrapped(x: int, cx: int, cy: int, width: int): (int, int) {
    if cx + width > WIDTH then (x, cy + 16) else (cx, cy)
  }

  /** The loop of `oled_draw_text_utf8` from cursor (cx, cy), for text started in column x. */
  function Layout(s: Text, x: int, cx: int, cy: int): Plan
    requires NoNul(s)
    decreases |s|
  {
    match Next(s)
    case End => Plan([], true)
    case Malformed => Plan([], false)
    case Char(cp, n) =>
      if cp == 0x0A then Layout(s[n..], x, x, cy + 16)
      else
        var at := Wrapped(x, cx, cy, GlyphWidth(cp));
        if at.1 + 16 > HEIGHT then Plan([], true)
        else
          var rest := Layout(s[n..], x, at.0 + GlyphWidth(cp), at.1);
          Plan([Cell(at.0, at.1, cp)] + rest.cells, rest.ok)
  }

  ghost predicate Disjoint(a: Cell, b: Cell) {
    forall x, y :: !(Contains(a, x, y) && Contains(b, x, y))
  }

  predicate WithinScreen(c: Cell) {
    0 <= c.x && c.x + GlyphWidth(c.cp) <= WIDTH && 0 <= c.y && c.y + 16 <= HEIGHT
  }

  /** The cell lies at or behind the cursor. */
  predicate NotBefore(c: Cell, x: int, cx: int, cy: int) {
    c.y >= cy + 16 || (c.y == cy && c.x >= cx)
  }

  lemma {:induction false} LayoutMovesOn(s: Text, x: int, cx: int, cy: int, i: nat)
    requires NoNul(s) && i < |Layout(s, x, cx, cy).cells| && x <= cx
    ensures var c := Layout(s, x, cx, cy).cells[i]; NotBefore(c, x, cx, cy) && x <= c.x && c.y + 16 <= HEIGHT
    decreases |s|
  {
    hide Next;
    var r := Next(s);
    if r.cp == 0x0A {
      LayoutMovesOn(s[r.length..], x, x, cy + 16, i);
    } else if i > 0 {
      var at := Wrapped(x, cx, cy, GlyphWidth(r.cp));
      LayoutMovesOn(s[r.length..], x, at.0 + GlyphWidth(r.cp), at.1, i - 1);
    }
  }

  /** No two glyphs of a text overlap, wherever it starts. */
  lemma {:induction false} CellsDisjoint(s: Text, x: int, cx: int, cy: int, i: nat, k: nat)
    requires NoNul(s) && i < k < |Layout(s, x, cx, cy).cells| && x <= cx
    ensures Disjoint(Layout(s, x, cx, cy).cells[i], Layout(s, x, cx, cy).cells[k])
    decreases |s|
  {
    hide Next;
    var r := Next(s);
    if r.cp == 0x0A {
      CellsDisjoint(s[r.length..], x, x, cy + 16, i, k);
    } else {
      var at := Wrapped(x, cx, cy, GlyphWidth(r.cp));
      if i > 0 {
        CellsDisjoint(s[r.length..], x, at.0 + GlyphWidth(r.cp), at.1, i - 1, k - 1);
      } else {
        LayoutMovesOn(s[r.length..], x, at.0 + GlyphWidth(r.cp), at.1, k - 1);
      }
    }
  }

  /** Text started at column 112 or before stays on the screen. */
  lemma {:induction false} CellsWithinScreen(s: Text, x: int, cx: int, cy: int, i: nat)
    requires NoNul(s) && i < |Layout(s, x, cx, cy).cells| && 0 <= x <= cx && x <= 112 && 0 <= cy
    ensures WithinScreen(Layout(s, x, cx, cy).cells[i])
    decreases |s|
  {
    hide Next;
    var r := Next(s);
    if r.cp == 0x0A {
      CellsWithinScreen(s[r.length..], x, x, cy + 16, i);
    } else if i > 0 {
      var at := Wrapped(x, cx, cy, GlyphWidth(r.cp));
      CellsWithinScreen(s[r.length..], x, at.0 + GlyphWidth(r.cp), at.1, i - 1);
    }
  }

  /** All glyphs of the text are on the screen in full. */
  ghost predicate FitsFrom(x: int, y: int) {
    forall s: Text, i: nat :: NoNul(s) && i < |Layout(s, x, x, y).cells| ==> WithinScreen(Layout(s, x, x, y).cells[i])
  }

  /** Text started below row 32 has no second row to wrap to. */
  lemma {:induction false} LowRowFits(s: Text, x: int, cx: int, cy: int, i: nat)
    requires NoNul(s) && i < |Layout(s, x, cx, cy).cells| && 0 <= x <= cx && cy > 32
    ensures WithinScreen(Layout(s, x, cx, cy).cells[i])
    decreases |s|
  {
    hide Next;
    var r := Next(s);
    if r.cp == 0x0A {
      LowRowFits(s[r.length..], x, x, cy + 16, i);
    } else if i > 0 {
      LowRowFits(s[r.length..], x, cx + GlyphWidth(r.cp), cy, i - 1);
    }
  }

  lemma WideGlyphSticksOut(x: int, y: int)
    requires OnScreen(x, y) && x > 112 && y <= 32
    ensures !FitsFrom(x, y)
  {
    var cp: bv32 := 0x4E32;
    var s := Encode(cp);
    DecodesEncoding(cp, []);
    assert s + [] == s;
    assert Layout(s, x, x, y).cells[0] == Cell(x, y + 16, cp);
    assert !WithinScreen(Cell(x, y + 16, cp));
  }

  /** From which starts every text stays on the screen in full: column 112 or before, or a row
      so low that a glyph that has to wrap is not drawn at all. */
  lemma FitsExactlyWhen(x: int, y: int)
    requires OnScreen(x, y)
    ensures FitsFrom(x, y) <==> x <= 112 || y > 32
  {
    if x <= 112 {
      forall s: Text, i: nat | NoNul(s) && i < |Layout(s, x, x, y).cells|
        ensures WithinScreen(Layout(s, x, x, y).cells[i])
      {
        CellsWithinScreen(s, x, x, y, i);
      }
    } else if y > 32 {
      forall s: Text, i: nat | NoNul(s) && i < |Layout(s, x, x, y).cells|
        ensures WithinScreen(Layout(s, x, x, y).cells[i])
      {
        LowRowFits(s, x, x, y, i);
      }
    } else {
      WideGlyphSticksOut(x, y);
    }
  }

  /** Over disjoint cells, painting shows each glyph as it is and leaves the rest alone. */
  lemma {:induction false} PaintedShowsEach(font: Font, frame: Frame, cells: seq<Cell>, x: nat, y: nat)
    requires OnScreen(x, y)
    requires forall i, k :: 0 <= i < k < |cells| ==> Disjoint(cells[i], cells[k])
    ensures forall i :: 0 <= i < |cells| && Contains(cells[i], x, y) ==>
      Painted(font, frame, cells, x, y) == CellShows(font, cells[i], x, y)
    ensures (forall i :: 0 <= i < |cells| ==> !Contains(cells[i], x, y)) ==>
      Painted(font, frame, cells, x, y) == Shows(frame, x, y)
    decreases |cells|
  {
    if cells != [] {
      var n := |cells| - 1;
      PaintedShowsEach(font, frame, cells[..n], x, y);
      if Contains(cells[n], x, y) {
        assert forall i :: 0 <= i < n ==> Disjoint(cells[i], cells[n]);
      }
    }
  }

  /** The picture a text leaves: every glyph of its layout is shown exactly, pixels outside them
      are as before. */
  lemma TextPicture(font: Font, before: Frame, s: Text, x: int, y: int, after: Frame, px: nat, py: nat)
    requires NoNul(s) && OnScreen(x, y) && OnScreen(px, py)
    requires AllPainted(font, before, Layout(s, x, x, y).cells, after)
    ensures var cells := Layout(s, x, x, y).cells;
      && (forall i :: 0 <= i < |cells| && Contains(cells[i], px, py) ==>
            Shows(after, px, py) == CellShows(font, cells[i], px, py))
      && ((forall i :: 0 <= i < |cells| ==> !Contains(cells[i], px, py)) ==>
            Shows(after, px, py) == Shows(before, px, py))
  {
    hide Shows, Contains, CellShows, Layout, Disjoint;
    var cells := Layout(s, x, x, y).cells;
    forall i, k | 0 <= i < k < |cells| ensures Disjoint(cells[i], cells[k]) {
      CellsDisjoint(s, x, x, y, i, k);
    }
    PaintedShowsEach(font, before, cells, px, py);
  }

  /** The second frame is the first with one cell drawn on it. */
  ghost predicate CellDrawn(font: Font, before: Frame, c: Cell, after: Frame) {
    forall x: nat, y: nat :: OnScreen(x, y) ==>
      Shows(after, x, y) == if Contains(c, x, y) then CellShows(font, c, x, y) else Shows(before, x, y)
  }

  /** The second frame is the first with all the cells painted over it. */
  ghost predicate AllPainted(font: Font, before: Frame, cells: seq<Cell>, after: Frame) {
    forall x: nat, y: nat :: OnScreen(x, y) ==> Shows(after, x, y) == Painted(font, before, cells, x, y)
  }

  lemma PaintsNothing(font: Font, frame: Frame)
    ensures AllPainted(font, frame, [], frame)
  {
  }

  lemma PaintsOneMore(font: Font, before: Frame, cells: seq<Cell>, mid: Frame, c: Cell, after: Frame)
    requires AllPainted(font, before, cells, mid) && CellDrawn(font, mid, c, after)
    ensures AllPainted(font, before, cells + [c], after)
  {
    hide Shows, Contains, CellShows;
    forall x: nat, y: nat | OnScreen(x, y) ensures Shows(after, x, y) == Painted(font, before, cells + [c], x, y) {
      assert (cells + [c])[..|cells|] == cells;
      assert Shows(mid, x, y) == Painted(font, before, cells, x, y);
    }
  }

  /** One turn of the layout loop at a character that is not a newline. */
  lemma LayoutSteps(s: Text, p: nat, x: int, cx: int, cy: int)
    requires NoNul(s) && p < |s| && Next(s[p..]).Char?
    ensures var r := Next(s[p..]);
      && p + r.length <= |s|
      && (r.cp == 0x0A ==> Layout(s[p..], x, cx, cy) == Layout(s[p + r.length..], x, x, cy + 16))
      && (r.cp != 0x0A ==>
            var at := Wrapped(x, cx, cy, GlyphWidth(r.cp));
            if at.1 + 16 > HEIGHT then Layout(s[p..], x, cx, cy) == Plan([], true)
            else
              var rest := Layout(s[p + r.length..], x, at.0 + GlyphWidth(r.cp), at.1);
              Layout(s[p..], x, cx, cy) == Plan([Cell(at.0, at.1, r.cp)] + rest.cells, rest.ok))
  {
    hide Next;
    assert s[p..][Next(s[p..]).length..] == s[p + Next(s[p..]).length..];
  }

  lemma LayoutEnds(s: Text, x: int, cx: int, cy: int)
    requires NoNul(s)
    ensures Next(s).End? <==> s == []
    ensures s == [] ==> Layout(s, x, cx, cy) == Plan([], true)
    ensures Next(s).Malformed? ==> Layout(s, x, cx, cy) == Plan([], false)
  {
    AcceptsExactly(s);
  }

  class Display {
    const buffer: array<bv8>

    constructor ()
      ensures fresh(buffer) && buffer.Length == SIZE
      ensures forall x: nat, y: nat :: OnScreen(x, y) ==> !Shows(buffer[..], x, y)
    {
      buffer := new bv8[SIZE](_ => 0);
    }

    method Store(i: nat, b: bv8)
      requires buffer.Length == SIZE && i < SIZE
      modifies buffer
      ensures buffer[..] == old(buffer[..])[i := b]
    {
      buffer[i] := b;
    }

    /** `oled_set_pixel`. */
    method SetPixel(x: int, y: int, enabled: bool)
      requires buffer.Length == SIZE
      modifies buffer
      ensures buffer[..] == WithPixel(old(buffer[..]), x, y, enabled)
    {
      hide Mask;
      if x < 0 || x >= WIDTH || y < 0 || y >= HEIGHT {
        return;
      }
      var i, mask := x + (y / 8) * WIDTH, Mask(y % 8);
      ghost var frame := buffer[..];
      assert i == Index(x, y) && frame[i] == buffer[i];
      if enabled {
        Store(i, buffer[i] | mask);
      } else {
        Store(i, buffer[i] & !mask);
      }
    }

    /** The row and column loops of `oled_draw_ascii16`, `oled_draw_zh16` and
        `oled_draw_missing_zh16`: the part of the cell on the screen shows the glyph. */
    method DrawCell(font: Font, c: Cell)
      requires buffer.Length == SIZE
      modifies buffer
      ensures CellDrawn(font, old(buffer[..]), c, buffer[..])
    {
      hide Shows, GlyphBit;
      var width := GlyphWidth(c.cp);
      for row := 0 to 16
        invariant forall px: nat, py: nat :: OnScreen(px, py) ==>
          Shows(buffer[..], px, py) ==
            if Contains(c, px, py) && py < c.y + row then CellShows(font, c, px, py) else Shows(old(buffer[..]), px, py)
      {
        for col := 0 to width
          invariant forall px: nat, py: nat :: OnScreen(px, py) ==>
            Shows(buffer[..], px, py) ==
              if Contains(c, px, py) && (py < c.y + row || (py == c.y + row && px < c.x + col))
              then CellShows(font, c, px, py)
              else Shows(old(buffer[..]), px, py)
        {
          ghost var before := buffer[..];
          var enabled := GlyphPixel(font, c.cp, row, col);
          SetPixel(c.x + col, c.y + row, enabled);
          forall px: nat, py: nat | OnScreen(px, py)
            ensures Shows(buffer[..], px, py) ==
              if px == c.x + col && py == c.y + row then enabled else Shows(before, px, py)
          {
            WithPixelShows(before, c.x + col, c.y + row, enabled, px, py);
          }
        }
      }
    }

    /** `oled_draw_text_utf8`. What is on the screen afterwards is the old picture with the
        planned cells painted over it. */
    method DrawText(font: Font, x: int, y: int, s: Text) returns (ok: bool, ghost plan: Plan)
      requires buffer.Length == SIZE && NoNul(s)
      modifies buffer
      ensures plan == if OnScreen(x, y) then Layout(s, x, x, y) else Plan([], false)
      ensures ok == plan.ok
      ensures AllPainted(font, old(buffer[..]), plan.cells, buffer[..])
    {
      hide Next, Layout, AllPainted, CellDrawn;
      PaintsNothing(font, buffer[..]);
      plan := Plan([], false);
      if x < 0 || x >= WIDTH || y < 0 || y >= HEIGHT {
        return false, plan;
      }
      plan := Layout(s, x, x, y);
      var cx, cy, p := x, y, 0;
      ghost var drawn: seq<Cell> := [];
      assert s[0..] == s;
      while p < |s|
        invariant p <= |s|
        invariant plan == (var rest := Layout(s[p..], x, cx, cy); Plan(drawn + rest.cells, rest.ok))
        invariant AllPainted(font, old(buffer[..]), drawn, buffer[..])
        decreases |s| - p
      {
        assert drawn + [] == drawn;
        var r := Next(s[p..]);
        LayoutEnds(s[p..], x, cx, cy);
        if r.Malformed? {
          return false, plan;
        }
        LayoutSteps(s, p, x, cx, cy);
        p := p + r.length;
        if r.cp == 0x0A {
          cx, cy := x, cy + 16;
        } else {
          var width := if r.cp < 0x80 then 8 else 16;
          if cx + width > WIDTH {
            cx, cy := x, cy + 16;
          }
          if cy + 16 > HEIGHT {
            return true, plan;
          }
          ghost var before := buffer[..];
          var c := Cell(cx, cy, r.cp);
          DrawCell(font, c);
          PaintsOneMore(font, old(buffer[..]), drawn, before, c, buffer[..]);
          ghost var rest := Layout(s[p..], x, cx + width, cy);
          assert drawn + ([c] + rest.cells) == drawn + [c] + rest.cells;
          drawn := drawn + [c];
          cx := cx + width;
        }
      }
      assert s[p..] == [] && drawn + [] == drawn;
      LayoutEnds(s[p..], x, cx, cy);
      ok := true;
    }
  }
}
