/** The account numbers documented for parseBankAccount. Each text is the
    drawing of its digits, so reading it gives the digits back. A drawing's
    rows are worked out three digits at a time, and the pieces glued together
    as strings. */
module BankOcrExamples {
  import opened StringUtils
  import opened BankOcr

  /** Row `r` of the cells of three digits. */
  lemma CellsOfThree(x: Digit, y: Digit, z: Digit, r: nat)
    requires r < 3
    ensures Cells([x, y, z], r) == GlyphRow(GlyphOf(x), r) + GlyphRow(GlyphOf(y), r) + GlyphRow(GlyphOf(z), r)
  {
    CellsOne(x, r);
    CellsOne(y, r);
    CellsOne(z, r);
    CellsAppend([x], [y], r);
    CellsAppend([x, y], [z], r);
    assert [x] + [y] == [x, y] && [x, y] + [z] == [x, y, z];
  }

  /** Row `r` of the cells of one digit is that row of its glyph. */
  lemma CellsOne(d: Digit, r: nat)
    requires r < 3
    ensures Cells([d], r) == GlyphRow(GlyphOf(d), r)
  {
    var c, g := Cells([d], r), GlyphRow(GlyphOf(d), r);
    forall j | 0 <= j < 3
      ensures c[j] == g[j]
    {
      assert j / 3 == 0 && j % 3 == j;
    }
  }

  /** Rows of three groups of digits, side by side. */
  lemma RowFromGroups(a: seq<Digit>, b: seq<Digit>, c: seq<Digit>, r: nat, x: string, y: string, z: string)
    requires r < 3 && Cells(a, r) == x && Cells(b, r) == y && Cells(c, r) == z
    ensures Cells(a + b + c, r) == x + y + z
  {
    CellsAppend(a + b, c, r);
    CellsAppend(a, b, r);
  }

  /** The digits of three groups, side by side. */
  lemma DigitsOfGroups(a: seq<Digit>, b: seq<Digit>, c: seq<Digit>)
    ensures DigitString(a + b + c) == DigitString(a) + DigitString(b) + DigitString(c)
  {
  }

  lemma DrawFromRows(ds: seq<Digit>, x0: string, x1: string, x2: string)
    requires Cells(ds, 0) == x0 && Cells(ds, 1) == x1 && Cells(ds, 2) == x2
    ensures Draw(ds) == (x0 + "\n") + (x1 + "\n") + (x2 + "\n")
  {
  }

  /** The first documented account: 123456789. */
  lemma Ones(text: string)
    requires text == "    _  _     _  _  _  _  _ \n" + "  | _| _||_||_ |_   ||_||_|\n" + "  ||_  _|  | _||_|  ||_| _|\n"
    ensures Decode(text, 0) == "123456789"
  {
    var a, b, c := [1, 2, 3], [4, 5, 6], [7, 8, 9];
    OnesFrom(text, a, b, c);
  }

  lemma OnesFrom(text: string, a: seq<Digit>, b: seq<Digit>, c: seq<Digit>)
    requires text == "    _  _     _  _  _  _  _ \n" + "  | _| _||_||_ |_   ||_||_|\n" + "  ||_  _|  | _||_|  ||_| _|\n"
    requires a == [1, 2, 3] && b == [4, 5, 6] && c == [7, 8, 9]
    ensures Decode(text, 0) == "123456789"
  {
    OnesGroups(a, b, c);
    OnesRows(a, b, c);
    OnesDrawing(a + b + c);
    DecodeDrawing(a + b + c);
    OnesDigits(a, b, c);
  }

  lemma OnesDigits(a: seq<Digit>, b: seq<Digit>, c: seq<Digit>)
    requires a == [1, 2, 3] && b == [4, 5, 6] && c == [7, 8, 9]
    ensures DigitString(a + b + c) == "123456789"
  {
    DigitsOfGroups(a, b, c);
    assert DigitString(a) == "123";
    assert DigitString(b) == "456";
    assert DigitString(c) == "789";
  }

  lemma OnesDrawing(ds: seq<Digit>)
    requires Cells(ds, 0) == "    _  _     _  _  _  _  _ "
    requires Cells(ds, 1) == "  | _| _||_||_ |_   ||_||_|"
    requires Cells(ds, 2) == "  ||_  _|  | _||_|  ||_| _|"
    ensures Draw(ds) == "    _  _     _  _  _  _  _ \n" + "  | _| _||_||_ |_   ||_||_|\n" + "  ||_  _|  | _||_|  ||_| _|\n"
  {
    DrawFromRows(ds, "    _  _     _  _  _  _  _ ", "  | _| _||_||_ |_   ||_||_|", "  ||_  _|  | _||_|  ||_| _|");
  }

  lemma OnesRows(a: seq<Digit>, b: seq<Digit>, c: seq<Digit>)
    requires Cells(a, 0) == "    _  _ " && Cells(a, 1) == "  | _| _|" && Cells(a, 2) == "  ||_  _|"
    requires Cells(b, 0) == "    _  _ " && Cells(b, 1) == "|_||_ |_ " && Cells(b, 2) == "  | _||_|"
    requires Cells(c, 0) == " _  _  _ " && Cells(c, 1) == "  ||_||_|" && Cells(c, 2) == "  ||_| _|"
    ensures Cells(a + b + c, 0) == "    _  _     _  _  _  _  _ " && Cells(a + b + c, 1) == "  | _| _||_||_ |_   ||_||_|" && Cells(a + b + c, 2) == "  ||_  _|  | _||_|  ||_| _|"
  {
    OnesRow0(a, b, c);
    OnesRow1(a, b, c);
    OnesRow2(a, b, c);
  }

  lemma OnesRow0(a: seq<Digit>, b: seq<Digit>, c: seq<Digit>)
    requires Cells(a, 0) == "    _  _ " && Cells(b, 0) == "    _  _ " && Cells(c, 0) == " _  _  _ "
    ensures Cells(a + b + c, 0) == "    _  _     _  _  _  _  _ "
  {
    RowFromGroups(a, b, c, 0, "    _  _ ", "    _  _ ", " _  _  _ ");
    OnesGlue0("    _  _ ", "    _  _ ", " _  _  _ ");
  }

  lemma OnesGlue0(x: string, y: string, z: string)
    requires x == "    _  _ " && y == "    _  _ " && z == " _  _  _ "
    ensures x + y + z == "    _  _     _  _  _  _  _ "
  {
  }

  lemma OnesRow1(a: seq<Digit>, b: seq<Digit>, c: seq<Digit>)
    requires Cells(a, 1) == "  | _| _|" && Cells(b, 1) == "|_||_ |_ " && Cells(c, 1) == "  ||_||_|"
    ensures Cells(a + b + c, 1) == "  | _| _||_||_ |_   ||_||_|"
  {
    RowFromGroups(a, b, c, 1, "  | _| _|", "|_||_ |_ ", "  ||_||_|");
    OnesGlue1("  | _| _|", "|_||_ |_ ", "  ||_||_|");
  }

  lemma OnesGlue1(x: string, y: string, z: string)
    requires x == "  | _| _|" && y == "|_||_ |_ " && z == "  ||_||_|"
    ensures x + y + z == "  | _| _||_||_ |_   ||_||_|"
  {
  }

  lemma OnesRow2(a: seq<Digit>, b: seq<Digit>, c: seq<Digit>)
    requires Cells(a, 2) == "  ||_  _|" && Cells(b, 2) == "  | _||_|" && Cells(c, 2) == "  ||_| _|"
    ensures Cells(a + b + c, 2) == "  ||_  _|  | _||_|  ||_| _|"
  {
    RowFromGroups(a, b, c, 2, "  ||_  _|", "  | _||_|", "  ||_| _|");
    OnesGlue2("  ||_  _|", "  | _||_|", "  ||_| _|");
  }

  lemma OnesGlue2(x: string, y: string, z: string)
    requires x == "  ||_  _|" && y == "  | _||_|" && z == "  ||_| _|"
    ensures x + y + z == "  ||_  _|  | _||_|  ||_| _|"
  {
  }

  lemma OnesGroups(a: seq<Digit>, b: seq<Digit>, c: seq<Digit>)
    requires a == [1, 2, 3] && b == [4, 5, 6] && c == [7, 8, 9]
    ensures Cells(a, 0) == "    _  _ " && Cells(a, 1) == "  | _| _|" && Cells(a, 2) == "  ||_  _|"
    ensures Cells(b, 0) == "    _  _ " && Cells(b, 1) == "|_||_ |_ " && Cells(b, 2) == "  | _||_|"
    ensures Cells(c, 0) == " _  _  _ " && Cells(c, 1) == "  ||_||_|" && Cells(c, 2) == "  ||_| _|"
  {
    OnesGroup1Row0(a);
    OnesGroup1Row1(a);
    OnesGroup1Row2(a);
    OnesGroup2Row0(b);
    OnesGroup2Row1(b);
    OnesGroup2Row2(b);
    OnesGroup3Row0(c);
    OnesGroup3Row1(c);
    OnesGroup3Row2(c);
  }

  lemma OnesGroup1Row0(g: seq<Digit>)
    requires g == [1, 2, 3]
    ensures Cells(g, 0) == "    _  _ "
  {
    CellsOfThree(1, 2, 3, 0);
  }

  lemma OnesGroup1Row1(g: seq<Digit>)
    requires g == [1, 2, 3]
    ensures Cells(g, 1) == "  | _| _|"
  {
    CellsOfThree(1, 2, 3, 1);
  }

  lemma OnesGroup1Row2(g: seq<Digit>)
    requires g == [1, 2, 3]
    ensures Cells(g, 2) == "  ||_  _|"
  {
    CellsOfThree(1, 2, 3, 2);
  }

  lemma OnesGroup2Row0(g: seq<Digit>)
    requires g == [4, 5, 6]
    ensures Cells(g, 0) == "    _  _ "
  {
    CellsOfThree(4, 5, 6, 0);
  }

  lemma OnesGroup2Row1(g: seq<Digit>)
    requires g == [4, 5, 6]
    ensures Cells(g, 1) == "|_||_ |_ "
  {
    CellsOfThree(4, 5, 6, 1);
  }

  lemma OnesGroup2Row2(g: seq<Digit>)
    requires g == [4, 5, 6]
    ensures Cells(g, 2) == "  | _||_|"
  {
    CellsOfThree(4, 5, 6, 2);
  }

  lemma OnesGroup3Row0(g: seq<Digit>)
    requires g == [7, 8, 9]
    ensures Cells(g, 0) == " _  _  _ "
  {
    CellsOfThree(7, 8, 9, 0);
  }

  lemma OnesGroup3Row1(g: seq<Digit>)
    requires g == [7, 8, 9]
    ensures Cells(g, 1) == "  ||_||_|"
  {
    CellsOfThree(7, 8, 9, 1);
  }

  lemma OnesGroup3Row2(g: seq<Digit>)
    requires g == [7, 8, 9]
    ensures Cells(g, 2) == "  ||_| _|"
  {
    CellsOfThree(7, 8, 9, 2);
  }

  /** The second documented account, whose leading zero the reader keeps: 023056789. */
  lemma LeadingZero(text: string)
    requires text == " _  _  _  _  _  _  _  _  _ \n" + "| | _| _|| ||_ |_   ||_||_|\n" + "|_||_  _||_| _||_|  ||_| _|\n"
    ensures Decode(text, 0) == "023056789"
  {
    var a, b, c := [0, 2, 3], [0, 5, 6], [7, 8, 9];
    LeadingZeroFrom(text, a, b, c);
  }

  lemma LeadingZeroFrom(text: string, a: seq<Digit>, b: seq<Digit>, c: seq<Digit>)
    requires text == " _  _  _  _  _  _  _  _  _ \n" + "| | _| _|| ||_ |_   ||_||_|\n" + "|_||_  _||_| _||_|  ||_| _|\n"
    requires a == [0, 2, 3] && b == [0, 5, 6] && c == [7, 8, 9]
    ensures Decode(text, 0) == "023056789"
  {
    LeadingZeroGroups(a, b, c);
    LeadingZeroRows(a, b, c);
    LeadingZeroDrawing(a + b + c);
    DecodeDrawing(a + b + c);
    LeadingZeroDigits(a, b, c);
  }

  lemma LeadingZeroDigits(a: seq<Digit>, b: seq<Digit>, c: seq<Digit>)
    requires a == [0, 2, 3] && b == [0, 5, 6] && c == [7, 8, 9]
    ensures DigitString(a + b + c) == "023056789"
  {
    DigitsOfGroups(a, b, c);
    assert DigitString(a) == "023";
    assert DigitString(b) == "056";
    assert DigitString(c) == "789";
  }

  lemma LeadingZeroDrawing(ds: seq<Digit>)
    requires Cells(ds, 0) == " _  _  _  _  _  _  _  _  _ "
    requires Cells(ds, 1) == "| | _| _|| ||_ |_   ||_||_|"
    requires Cells(ds, 2) == "|_||_  _||_| _||_|  ||_| _|"
    ensures Draw(ds) == " _  _  _  _  _  _  _  _  _ \n" + "| | _| _|| ||_ |_   ||_||_|\n" + "|_||_  _||_| _||_|  ||_| _|\n"
  {
    DrawFromRows(ds, " _  _  _  _  _  _  _  _  _ ", "| | _| _|| ||_ |_   ||_||_|", "|_||_  _||_| _||_|  ||_| _|");
  }

  lemma LeadingZeroRows(a: seq<Digit>, b: seq<Digit>, c: seq<Digit>)
    requires Cells(a, 0) == " _  _  _ " && Cells(a, 1) == "| | _| _|" && Cells(a, 2) == "|_||_  _|"
    requires Cells(b, 0) == " _  _  _ " && Cells(b, 1) == "| ||_ |_ " && Cells(b, 2) == "|_| _||_|"
    requires Cells(c, 0) == " _  _  _ " && Cells(c, 1) == "  ||_||_|" && Cells(c, 2) == "  ||_| _|"
    ensures Cells(a + b + c, 0) == " _  _  _  _  _  _  _  _  _ " && Cells(a + b + c, 1) == "| | _| _|| ||_ |_   ||_||_|" && Cells(a + b + c, 2) == "|_||_  _||_| _||_|  ||_| _|"
  {
    LeadingZeroRow0(a, b, c);
    LeadingZeroRow1(a, b, c);
    LeadingZeroRow2(a, b, c);
  }

  lemma LeadingZeroRow0(a: seq<Digit>, b: seq<Digit>, c: seq<Digit>)
    requires Cells(a, 0) == " _  _  _ " && Cells(b, 0) == " _  _  _ " && Cells(c, 0) == " _  _  _ "
    ensures Cells(a + b + c, 0) == " _  _  _  _  _  _  _  _  _ "
  {
    RowFromGroups(a, b, c, 0, " _  _  _ ", " _  _  _ ", " _  _  _ ");
    LeadingZeroGlue0(" _  _  _ ", " _  _  _ ", " _  _  _ ");
  }

  lemma LeadingZeroGlue0(x: string, y: string, z: string)
    requires x == " _  _  _ " && y == " _  _  _ " && z == " _  _  _ "
    ensures x + y + z == " _  _  _  _  _  _  _  _  _ "
  {
  }

  lemma LeadingZeroRow1(a: seq<Digit>, b: seq<Digit>, c: seq<Digit>)
    requires Cells(a, 1) == "| | _| _|" && Cells(b, 1) == "| ||_ |_ " && Cells(c, 1) == "  ||_||_|"
    ensures Cells(a + b + c, 1) == "| | _| _|| ||_ |_   ||_||_|"
  {
    RowFromGroups(a, b, c, 1, "| | _| _|", "| ||_ |_ ", "  ||_||_|");
    LeadingZeroGlue1("| | _| _|", "| ||_ |_ ", "  ||_||_|");
  }

  lemma LeadingZeroGlue1(x: string, y: string, z: string)
    requires x == "| | _| _|" && y == "| ||_ |_ " && z == "  ||_||_|"
    ensures x + y + z == "| | _| _|| ||_ |_   ||_||_|"
  {
  }

  lemma LeadingZeroRow2(a: seq<Digit>, b: seq<Digit>, c: seq<Digit>)
    requires Cells(a, 2) == "|_||_  _|" && Cells(b, 2) == "|_| _||_|" && Cells(c, 2) == "  ||_| _|"
    ensures Cells(a + b + c, 2) == "|_||_  _||_| _||_|  ||_| _|"
  {
    RowFromGroups(a, b, c, 2, "|_||_  _|", "|_| _||_|", "  ||_| _|");
    LeadingZeroGlue2("|_||_  _|", "|_| _||_|", "  ||_| _|");
  }

  lemma LeadingZeroGlue2(x: string, y: string, z: string)
    requires x == "|_||_  _|" && y == "|_| _||_|" && z == "  ||_| _|"
    ensures x + y + z == "|_||_  _||_| _||_|  ||_| _|"
  {
  }

  lemma LeadingZeroGroups(a: seq<Digit>, b: seq<Digit>, c: seq<Digit>)
    requires a == [0, 2, 3] && b == [0, 5, 6] && c == [7, 8, 9]
    ensures Cells(a, 0) == " _  _  _ " && Cells(a, 1) == "| | _| _|" && Cells(a, 2) == "|_||_  _|"
    ensures Cells(b, 0) == " _  _  _ " && Cells(b, 1) == "| ||_ |_ " && Cells(b, 2) == "|_| _||_|"
    ensures Cells(c, 0) == " _  _  _ " && Cells(c, 1) == "  ||_||_|" && Cells(c, 2) == "  ||_| _|"
  {
    LeadingZeroGroup1Row0(a);
    LeadingZeroGroup1Row1(a);
    LeadingZeroGroup1Row2(a);
    LeadingZeroGroup2Row0(b);
    LeadingZeroGroup2Row1(b);
    LeadingZeroGroup2Row2(b);
    LeadingZeroGroup3Row0(c);
    LeadingZeroGroup3Row1(c);
    LeadingZeroGroup3Row2(c);
  }

  lemma LeadingZeroGroup1Row0(g: seq<Digit>)
    requires g == [0, 2, 3]
    ensures Cells(g, 0) == " _  _  _ "
  {
    CellsOfThree(0, 2, 3, 0);
  }

  lemma LeadingZeroGroup1Row1(g: seq<Digit>)
    requires g == [0, 2, 3]
    ensures Cells(g, 1) == "| | _| _|"
  {
    CellsOfThree(0, 2, 3, 1);
  }

  lemma LeadingZeroGroup1Row2(g: seq<Digit>)
    requires g == [0, 2, 3]
    ensures Cells(g, 2) == "|_||_  _|"
  {
    CellsOfThree(0, 2, 3, 2);
  }

  lemma LeadingZeroGroup2Row0(g: seq<Digit>)
    requires g == [0, 5, 6]
    ensures Cells(g, 0) == " _  _  _ "
  {
    CellsOfThree(0, 5, 6, 0);
  }

  lemma LeadingZeroGroup2Row1(g: seq<Digit>)
    requires g == [0, 5, 6]
    ensures Cells(g, 1) == "| ||_ |_ "
  {
    CellsOfThree(0, 5, 6, 1);
  }

  lemma LeadingZeroGroup2Row2(g: seq<Digit>)
    requires g == [0, 5, 6]
    ensures Cells(g, 2) == "|_| _||_|"
  {
    CellsOfThree(0, 5, 6, 2);
  }

  lemma LeadingZeroGroup3Row0(g: seq<Digit>)
    requires g == [7, 8, 9]
    ensures Cells(g, 0) == " _  _  _ "
  {
    CellsOfThree(7, 8, 9, 0);
  }

  lemma LeadingZeroGroup3Row1(g: seq<Digit>)
    requires g == [7, 8, 9]
    ensures Cells(g, 1) == "  ||_||_|"
  {
    CellsOfThree(7, 8, 9, 1);
  }

  lemma LeadingZeroGroup3Row2(g: seq<Digit>)
    requires g == [7, 8, 9]
    ensures Cells(g, 2) == "  ||_| _|"
  {
    CellsOfThree(7, 8, 9, 2);
  }

  /** The third documented account: 823856989. */
  lemma Eights(text: string)
    requires text == " _  _  _  _  _  _  _  _  _ \n" + "|_| _| _||_||_ |_ |_||_||_|\n" + "|_||_  _||_| _||_| _||_| _|\n"
    ensures Decode(text, 0) == "823856989"
  {
    var a, b, c := [8, 2, 3], [8, 5, 6], [9, 8, 9];
    EightsFrom(text, a, b, c);
  }

  lemma EightsFrom(text: string, a: seq<Digit>, b: seq<Digit>, c: seq<Digit>)
    requires text == " _  _  _  _  _  _  _  _  _ \n" + "|_| _| _||_||_ |_ |_||_||_|\n" + "|_||_  _||_| _||_| _||_| _|\n"
    requires a == [8, 2, 3] && b == [8, 5, 6] && c == [9, 8, 9]
    ensures Decode(text, 0) == "823856989"
  {
    EightsGroups(a, b, c);
    EightsRows(a, b, c);
    EightsDrawing(a + b + c);
    DecodeDrawing(a + b + c);
    EightsDigits(a, b, c);
  }

  lemma EightsDigits(a: seq<Digit>, b: seq<Digit>, c: seq<Digit>)
    requires a == [8, 2, 3] && b == [8, 5, 6] && c == [9, 8, 9]
    ensures DigitString(a + b + c) == "823856989"
  {
    DigitsOfGroups(a, b, c);
    assert DigitString(a) == "823";
    assert DigitString(b) == "856";
    assert DigitString(c) == "989";
  }

  lemma EightsDrawing(ds: seq<Digit>)
    requires Cells(ds, 0) == " _  _  _  _  _  _  _  _  _ "
    requires Cells(ds, 1) == "|_| _| _||_||_ |_ |_||_||_|"
    requires Cells(ds, 2) == "|_||_  _||_| _||_| _||_| _|"
    ensures Draw(ds) == " _  _  _  _  _  _  _  _  _ \n" + "|_| _| _||_||_ |_ |_||_||_|\n" + "|_||_  _||_| _||_| _||_| _|\n"
  {
    DrawFromRows(ds, " _  _  _  _  _  _  _  _  _ ", "|_| _| _||_||_ |_ |_||_||_|", "|_||_  _||_| _||_| _||_| _|");
  }

  lemma EightsRows(a: seq<Digit>, b: seq<Digit>, c: seq<Digit>)
    requires Cells(a, 0) == " _  _  _ " && Cells(a, 1) == "|_| _| _|" && Cells(a, 2) == "|_||_  _|"
    requires Cells(b, 0) == " _  _  _ " && Cells(b, 1) == "|_||_ |_ " && Cells(b, 2) == "|_| _||_|"
    requires Cells(c, 0) == " _  _  _ " && Cells(c, 1) == "|_||_||_|" && Cells(c, 2) == " _||_| _|"
    ensures Cells(a + b + c, 0) == " _  _  _  _  _  _  _  _  _ " && Cells(a + b + c, 1) == "|_| _| _||_||_ |_ |_||_||_|" && Cells(a + b + c, 2) == "|_||_  _||_| _||_| _||_| _|"
  {
    EightsRow0(a, b, c);
    EightsRow1(a, b, c);
    EightsRow2(a, b, c);
  }

  lemma EightsRow0(a: seq<Digit>, b: seq<Digit>, c: seq<Digit>)
    requires Cells(a, 0) == " _  _  _ " && Cells(b, 0) == " _  _  _ " && Cells(c, 0) == " _  _  _ "
    ensures Cells(a + b + c, 0) == " _  _  _  _  _  _  _  _  _ "
  {
    RowFromGroups(a, b, c, 0, " _  _  _ ", " _  _  _ ", " _  _  _ ");
    EightsGlue0(" _  _  _ ", " _  _  _ ", " _  _  _ ");
  }

  lemma EightsGlue0(x: string, y: string, z: string)
    requires x == " _  _  _ " && y == " _  _  _ " && z == " _  _  _ "
    ensures x + y + z == " _  _  _  _  _  _  _  _  _ "
  {
  }

  lemma EightsRow1(a: seq<Digit>, b: seq<Digit>, c: seq<Digit>)
    requires Cells(a, 1) == "|_| _| _|" && Cells(b, 1) == "|_||_ |_ " && Cells(c, 1) == "|_||_||_|"
    ensures Cells(a + b + c, 1) == "|_| _| _||_||_ |_ |_||_||_|"
  {
    RowFromGroups(a, b, c, 1, "|_| _| _|", "|_||_ |_ ", "|_||_||_|");
    EightsGlue1("|_| _| _|", "|_||_ |_ ", "|_||_||_|");
  }

  lemma EightsGlue1(x: string, y: string, z: string)
    requires x == "|_| _| _|" && y == "|_||_ |_ " && z == "|_||_||_|"
    ensures x + y + z == "|_| _| _||_||_ |_ |_||_||_|"
  {
  }

  lemma EightsRow2(a: seq<Digit>, b: seq<Digit>, c: seq<Digit>)
    requires Cells(a, 2) == "|_||_  _|" && Cells(b, 2) == "|_| _||_|" && Cells(c, 2) == " _||_| _|"
    ensures Cells(a + b + c, 2) == "|_||_  _||_| _||_| _||_| _|"
  {
    RowFromGroups(a, b, c, 2, "|_||_  _|", "|_| _||_|", " _||_| _|");
    EightsGlue2("|_||_  _|", "|_| _||_|", " _||_| _|");
  }

  lemma EightsGlue2(x: string, y: string, z: string)
    requires x == "|_||_  _|" && y == "|_| _||_|" && z == " _||_| _|"
    ensures x + y + z == "|_||_  _||_| _||_| _||_| _|"
  {
  }

  lemma EightsGroups(a: seq<Digit>, b: seq<Digit>, c: seq<Digit>)
    requires a == [8, 2, 3] && b == [8, 5, 6] && c == [9, 8, 9]
    ensures Cells(a, 0) == " _  _  _ " && Cells(a, 1) == "|_| _| _|" && Cells(a, 2) == "|_||_  _|"
    ensures Cells(b, 0) == " _  _  _ " && Cells(b, 1) == "|_||_ |_ " && Cells(b, 2) == "|_| _||_|"
    ensures Cells(c, 0) == " _  _  _ " && Cells(c, 1) == "|_||_||_|" && Cells(c, 2) == " _||_| _|"
  {
    EightsGroup1Row0(a);
    EightsGroup1Row1(a);
    EightsGroup1Row2(a);
    EightsGroup2Row0(b);
    EightsGroup2Row1(b);
    EightsGroup2Row2(b);
    EightsGroup3Row0(c);
    EightsGroup3Row1(c);
    EightsGroup3Row2(c);
  }

  lemma EightsGroup1Row0(g: seq<Digit>)
    requires g == [8, 2, 3]
    ensures Cells(g, 0) == " _  _  _ "
  {
    CellsOfThree(8, 2, 3, 0);
  }

  lemma EightsGroup1Row1(g: seq<Digit>)
    requires g == [8, 2, 3]
    ensures Cells(g, 1) == "|_| _| _|"
  {
    CellsOfThree(8, 2, 3, 1);
  }

  lemma EightsGroup1Row2(g: seq<Digit>)
    requires g == [8, 2, 3]
    ensures Cells(g, 2) == "|_||_  _|"
  {
    CellsOfThree(8, 2, 3, 2);
  }

  lemma EightsGroup2Row0(g: seq<Digit>)
    requires g == [8, 5, 6]
    ensures Cells(g, 0) == " _  _  _ "
  {
    CellsOfThree(8, 5, 6, 0);
  }

  lemma EightsGroup2Row1(g: seq<Digit>)
    requires g == [8, 5, 6]
    ensures Cells(g, 1) == "|_||_ |_ "
  {
    CellsOfThree(8, 5, 6, 1);
  }

  lemma EightsGroup2Row2(g: seq<Digit>)
    requires g == [8, 5, 6]
    ensures Cells(g, 2) == "|_| _||_|"
  {
    CellsOfThree(8, 5, 6, 2);
  }

  lemma EightsGroup3Row0(g: seq<Digit>)
    requires g == [9, 8, 9]
    ensures Cells(g, 0) == " _  _  _ "
  {
    CellsOfThree(9, 8, 9, 0);
  }

  lemma EightsGroup3Row1(g: seq<Digit>)
    requires g == [9, 8, 9]
    ensures Cells(g, 1) == "|_||_||_|"
  {
    CellsOfThree(9, 8, 9, 1);
  }

  lemma EightsGroup3Row2(g: seq<Digit>)
    requires g == [9, 8, 9]
    ensures Cells(g, 2) == " _||_| _|"
  {
    CellsOfThree(9, 8, 9, 2);
  }
}
