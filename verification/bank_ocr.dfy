/** parseBankAccount: reads the digits of a three-row text drawn with pipes
    and underscores. The text is read in cells three characters wide; a
    cell's rows sit one row stride apart, the stride being a third of the
    text's length (the newline included). Each cell matching one of the ten
    digit glyphs gives that digit; any other cell gives nothing. */
module BankOcr {
  import opened Options
  import opened StringUtils

  /** The three rows of a digit cell, top to bottom. */
  datatype Glyph = Glyph(top: string, mid: string, bot: string)

  type Digit = d: nat | d < 10

  /** The drawings of the digits 0 to 9, in order. */
  const Glyphs: seq<Glyph> := [
    Glyph(" _ ", "| |", "|_|"),
    Glyph("   ", "  |", "  |"),
    Glyph(" _ ", " _|", "|_ "),
    Glyph(" _ ", " _|", " _|"),
    Glyph("   ", "|_|", "  |"),
    Glyph(" _ ", "|_ ", " _|"),
    Glyph(" _ ", "|_ ", "|_|"),
    Glyph(" _ ", "  |", "  |"),
    Glyph(" _ ", "|_|", "|_|"),
    Glyph(" _ ", "|_|", " _|")
  ]

  /** The drawing of a digit. */
  function GlyphOf(d: Digit): (g: Glyph)
    ensures |g.top| == 3 && |g.mid| == 3 && |g.bot| == 3
    ensures '\n' !in g.top && '\n' !in g.mid && '\n' !in g.bot
  {
    Glyphs[d]
  }

  /** No two digits share a drawing, so a cell stands for at most one digit. */
  lemma GlyphsDistinct(d: Digit, e: Digit)
    requires d != e
    ensures GlyphOf(d) != GlyphOf(e)
  {
  }

  /** The digit a cell draws, if any. */
  function ReadDigit(cell: Glyph): (r: Option<Digit>)
    ensures r.Some? ==> GlyphOf(r.value) == cell
    ensures r.None? ==> forall d: Digit :: GlyphOf(d) != cell
  {
    MatchFrom(cell, 0)
  }

  function MatchFrom(cell: Glyph, d: nat): (r: Option<Digit>)
    requires d <= 10
    ensures r.Some? ==> GlyphOf(r.value) == cell
    ensures r.None? ==> forall e: Digit :: d <= e ==> GlyphOf(e) != cell
    decreases 10 - d
  {
    if d == 10 then None
    else if GlyphOf(d) == cell then Some(d)
    else MatchFrom(cell, d + 1)
  }

  /** The ten `if` statements run in turn on one cell: each appends its
      digit when the cell matches its drawing. */
  function CellText(cell: Glyph): string
  {
    TestsFrom(cell, 0)
  }

  function TestsFrom(cell: Glyph, d: nat): string
    requires d <= 10
    decreases 10 - d
  {
    if d == 10 then ""
    else (if GlyphOf(d) == cell then [DigitChar(d)] else "") + TestsFrom(cell, d + 1)
  }

  /** The tests append the digit the cell draws, or nothing. */
  lemma CellTextIsDigit(cell: Glyph)
    ensures CellText(cell) == match ReadDigit(cell) case Some(d) => [DigitChar(d)] case None => ""
  {
    TestsAfter(cell, 0);
  }

  /** A cell gives at most one digit. */
  lemma CellTextDigits(cell: Glyph)
    ensures IsDigits(CellText(cell)) && |CellText(cell)| <= 1
  {
    CellTextIsDigit(cell);
  }

  lemma {:induction false} TestsAfter(cell: Glyph, d: nat)
    requires d <= 10
    ensures TestsFrom(cell, d) == match MatchFrom(cell, d) case Some(e) => [DigitChar(e)] case None => ""
    decreases 10 - d
  {
    if d < 10 {
      TestsAfter(cell, d + 1);
      if GlyphOf(d) == cell {
        forall e: Digit | d < e
          ensures GlyphOf(e) != cell
        {
          GlyphsDistinct(d, e);
        }
        NoLaterMatch(cell, d + 1);
      }
    }
  }

  /** When no later digit draws the cell, the later tests append nothing. */
  lemma {:induction false} NoLaterMatch(cell: Glyph, d: nat)
    requires d <= 10
    requires forall e: Digit :: d <= e ==> GlyphOf(e) != cell
    ensures MatchFrom(cell, d) == None && TestsFrom(cell, d) == ""
    decreases 10 - d
  {
    if d < 10 {
      NoLaterMatch(cell, d + 1);
    }
  }

  /** `str.slice(a, b)` for `a <= b`: clipped at the end of the string. */
  function Slice(s: string, a: nat, b: nat): (r: string)
    requires a <= b
    ensures |r| <= b - a
    ensures b <= |s| ==> r == s[a..b]
  {
    s[Min(a, |s|)..Min(b, |s|)]
  }

  function Min(a: nat, b: nat): nat
  {
    if a <= b then a else b
  }

  /** Where the middle row of a cell starts, relative to the top: `p + s`
      with `s = length / 3` a fraction, truncated by `slice`; `p` is whole,
      so the whole part of `s` is added. */
  function MidOffset(text: string): nat
  {
    |text| / 3
  }

  /** The bottom row: the whole part of `2 * s`, which is one more than twice
      the middle offset when the length leaves a remainder of 2. */
  function BotOffset(text: string): nat
  {
    2 * |text| / 3
  }

  /** The cell whose top row starts at `p`. */
  function CellAt(text: string, p: nat): Glyph
  {
    var m, b := p + MidOffset(text), p + BotOffset(text);
    Glyph(Slice(text, p, p + 3), Slice(text, m, m + 3), Slice(text, b, b + 3))
  }

  /** The text read from the cell at `p` on: `while (p < s)`, that is
      `3 * p < length`, stepping `p` by 3, each cell appending what its ten
      tests append. */
  function Decode(text: string, p: nat): string
  {
    DecodeWith(text, p, CellText)
  }

  /** The loop over the cells from `p` on, with `read` giving what one cell
      appends. */
  function DecodeWith(text: string, p: nat, read: Glyph -> string): string
    decreases |text| - p
  {
    if 3 * p >= |text| then "" else read(CellAt(text, p)) + DecodeWith(text, p + 3, read)
  }

  /** The number of cells the loop visits from `p` on. */
  function CellsFrom(text: string, p: nat): nat
    decreases |text| - p
  {
    if 3 * p >= |text| then 0 else 1 + CellsFrom(text, p + 3)
  }

  /** What reading from `p` gives: only digits, at most one per visited
      cell. */
  lemma DecodeDigits(text: string, p: nat)
    ensures IsDigits(Decode(text, p))
    ensures |Decode(text, p)| <= CellsFrom(text, p)
  {
    forall cell ensures IsDigits(CellText(cell)) && |CellText(cell)| <= 1 {
      CellTextDigits(cell);
    }
    DecodeWithDigits(text, p, CellText);
  }

  lemma {:induction false} DecodeWithDigits(text: string, p: nat, read: Glyph -> string)
    requires forall cell :: IsDigits(read(cell)) && |read(cell)| <= 1
    ensures IsDigits(DecodeWith(text, p, read))
    ensures |DecodeWith(text, p, read)| <= CellsFrom(text, p)
    decreases |text| - p
  {
    if 3 * p < |text| {
      var cell := CellAt(text, p);
      var a, b := read(cell), DecodeWith(text, p + 3, read);
      DecodeWithDigits(text, p + 3, read);
      DigitsAppend(a, b);
    }
  }

  /** parseBankAccount: the loop over the cells, appending what each cell's
      tests append. */
  method ParseBankAccount(text: string) returns (st: string)
    ensures st == Decode(text, 0)
    ensures IsDigits(st) && |st| <= CellsFrom(text, 0)
  {
    st := "";
    var p := 0;
    while 3 * p < |text|
      invariant Decode(text, 0) == st + Decode(text, p)
      decreases |text| - p
    {
      var cell := CellAt(text, p);
      var digits := CellText(cell);
      AppendAssoc(st, digits, Decode(text, p + 3));
      st := st + digits;
      p := p + 3;
    }
    assert st == st + "";
    DecodeDigits(text, 0);
  }

  // ---- Drawing an account number ----

  /** One row of a glyph: 0 top, 1 middle, 2 bottom. */
  function GlyphRow(g: Glyph, r: nat): string
    requires r < 3
  {
    if r == 0 then g.top else if r == 1 then g.mid else g.bot
  }

  /** Row `r` of the cells of `ds`, side by side: character `i` is
      character `i % 3` of the row of digit `i / 3`. */
  function Cells(ds: seq<Digit>, r: nat): (s: string)
    requires r < 3
    ensures |s| == 3 * |ds|
  {
    seq(3 * |ds|, i requires 0 <= i < 3 * |ds| => GlyphRow(GlyphOf(ds[i / 3]), r)[i % 3])
  }

  /** The cells of two numbers side by side. */
  lemma CellsAppend(a: seq<Digit>, b: seq<Digit>, r: nat)
    requires r < 3
    ensures Cells(a + b, r) == Cells(a, r) + Cells(b, r)
  {
    var ab, ca, cb := a + b, Cells(a, r), Cells(b, r);
    forall i | 0 <= i < 3 * |ab|
      ensures Cells(ab, r)[i] == (ca + cb)[i]
    {
      if i >= 3 * |a| {
        var j := i - 3 * |a|;
        assert i / 3 == |a| + j / 3 && i % 3 == j % 3;
      }
    }
  }

  /** The three rows of an account number, each ending in a newline, as the
      scanner produces them. */
  function Draw(ds: seq<Digit>): (s: string)
    ensures |s| == 9 * |ds| + 3
  {
    (Cells(ds, 0) + "\n") + (Cells(ds, 1) + "\n") + (Cells(ds, 2) + "\n")
  }

  function DigitString(ds: seq<Digit>): (s: string)
    ensures |s| == |ds|
  {
    seq(|ds|, k requires 0 <= k < |ds| => DigitChar(ds[k]))
  }

  /** The characters of cell `k` in row `r`. */
  lemma CellsSlice(ds: seq<Digit>, r: nat, k: nat)
    requires r < 3 && k < |ds|
    ensures Slice(Cells(ds, r), 3 * k, 3 * k + 3) == GlyphRow(GlyphOf(ds[k]), r)
  {
    var c, g := Cells(ds, r), GlyphRow(GlyphOf(ds[k]), r);
    var piece := c[3 * k..3 * k + 3];
    assert Slice(c, 3 * k, 3 * k + 3) == piece;
    forall j | 0 <= j < 3
      ensures piece[j] == g[j]
    {
      CellIndex(k, j);
      assert piece[j] == c[3 * k + j];
    }
  }

  lemma CellIndex(k: nat, j: nat)
    requires j < 3
    ensures (3 * k + j) / 3 == k && (3 * k + j) % 3 == j
  {
  }

  /** Three rows of one length, each followed by a newline and laid end to
      end: the three characters at `p` of each row sit one row apart. */
  lemma RowsSlice(c0: string, c1: string, c2: string, p: nat)
    requires |c0| == |c1| == |c2| && p + 3 <= |c0|
    ensures var t, m := (c0 + "\n") + (c1 + "\n") + (c2 + "\n"), |c0| + 1;
      && Slice(t, p, p + 3) == Slice(c0, p, p + 3)
      && Slice(t, m + p, m + p + 3) == Slice(c1, p, p + 3)
      && Slice(t, 2 * m + p, 2 * m + p + 3) == Slice(c2, p, p + 3)
  {
  }

  /** The cell at `3 * k` of a drawing is the drawing of the `k`-th digit. */
  lemma CellOfDrawing(ds: seq<Digit>, k: nat)
    requires k < |ds|
    ensures CellAt(Draw(ds), 3 * k) == GlyphOf(ds[k])
  {
    var c0, c1, c2 := Cells(ds, 0), Cells(ds, 1), Cells(ds, 2);
    CellOfRows(c0, c1, c2, |ds|, 3 * k);
    CellsSlice(ds, 0, k);
    CellsSlice(ds, 1, k);
    CellsSlice(ds, 2, k);
    SameGlyph(GlyphOf(ds[k]));
  }

  /** A cell of three rows laid end to end is made of the three rows'
      characters at its position. */
  lemma CellOfRows(c0: string, c1: string, c2: string, n: nat, p: nat)
    requires |c0| == |c1| == |c2| == 3 * n && p + 3 <= 3 * n
    ensures CellAt((c0 + "\n") + (c1 + "\n") + (c2 + "\n"), p)
      == Glyph(Slice(c0, p, p + 3), Slice(c1, p, p + 3), Slice(c2, p, p + 3))
  {
    RowsSlice(c0, c1, c2, p);
    CellInDrawing((c0 + "\n") + (c1 + "\n") + (c2 + "\n"), n, p);
  }

  lemma SameGlyph(g: Glyph)
    ensures Glyph(GlyphRow(g, 0), GlyphRow(g, 1), GlyphRow(g, 2)) == g
  {
  }

  /** In a text of three rows of `3 * n + 1` characters, the cell at `p`
      takes three characters from each row. */
  lemma CellInDrawing(text: string, n: nat, p: nat)
    requires |text| == 9 * n + 3
    ensures var m := 3 * n + 1;
      CellAt(text, p) == Glyph(Slice(text, p, p + 3), Slice(text, m + p, m + p + 3), Slice(text, 2 * m + p, 2 * m + p + 3))
  {
    assert MidOffset(text) == 3 * n + 1 && BotOffset(text) == 6 * n + 2;
  }

  /** The cell just past the last digit starts at the first newline. */
  lemma NewlineCell(ds: seq<Digit>)
    ensures '\n' in CellAt(Draw(ds), 3 * |ds|).top
  {
    var text := Draw(ds);
    var c0 := Cells(ds, 0);
    assert text == (c0 + "\n") + ((Cells(ds, 1) + "\n") + (Cells(ds, 2) + "\n"));
    assert text[3 * |ds|] == '\n';
    assert CellAt(text, 3 * |ds|).top[0] == '\n';
  }

  /** Reading a drawing from the `k`-th cell on, with any reader that knows
      the digits and reads nothing from a cell holding a newline. */
  lemma {:induction false} DecodeDrawingFrom(ds: seq<Digit>, k: nat, read: Glyph -> string)
    requires k <= |ds|
    requires forall d: Digit :: read(GlyphOf(d)) == [DigitChar(d)]
    requires forall cell: Glyph :: '\n' in cell.top ==> read(cell) == ""
    ensures DecodeWith(Draw(ds), 3 * k, read) == DigitString(ds[k..])
    decreases |ds| - k
  {
    var text := Draw(ds);
    assert |text| == 9 * |ds| + 3;
    if k == |ds| {
      NewlineCell(ds);
      assert DecodeWith(text, 3 * k + 3, read) == "";
    } else {
      var cell := CellAt(text, 3 * k);
      CellOfDrawing(ds, k);
      assert read(cell) == [DigitChar(ds[k])];
      assert DecodeWith(text, 3 * k, read) == read(cell) + DecodeWith(text, 3 * (k + 1), read);
      DecodeDrawingFrom(ds, k + 1, read);
      DigitStringCons(ds, k);
    }
  }

  lemma DigitStringCons(ds: seq<Digit>, k: nat)
    requires k < |ds|
    ensures DigitString(ds[k..]) == [DigitChar(ds[k])] + DigitString(ds[k + 1..])
  {
  }

  /** Reading a drawn account number gives its digits back. */
  lemma DecodeDrawing(ds: seq<Digit>)
    ensures Decode(Draw(ds), 0) == DigitString(ds)
  {
    forall d: Digit
      ensures CellText(GlyphOf(d)) == [DigitChar(d)]
    {
      CellTextIsDigit(GlyphOf(d));
      ReadGlyph(d);
    }
    forall cell: Glyph | '\n' in cell.top
      ensures CellText(cell) == ""
    {
      CellTextIsDigit(cell);
    }
    DecodeDrawingFrom(ds, 0, CellText);
    assert ds[0..] == ds;
  }

  /** The digit read from a digit's drawing is that digit. */
  lemma ReadGlyph(d: Digit)
    ensures ReadDigit(GlyphOf(d)) == Some(d)
  {
    var r := ReadDigit(GlyphOf(d));
    if r.Some? && r.value != d {
      GlyphsDistinct(r.value, d);
    }
  }
}
