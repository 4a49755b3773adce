/** The two documented wrappings of one sentence, at 26 and at 12 columns.
    Each is shown to be the greedy layout of the sentence's words, built up
    one line at a time from the last, so by `WordWrap.WrapOfGreedy` it is
    what the wrapper yields. */
module WordWrapExamples {
  import opened StringUtils
  import opened WordWrap

  /** The words of the documented sentence. */
  const Words: seq<string> := ["The", "String", "global", "object", "is", "a", "constructor", "for", "strings,", "or", "a", "sequence", "of", "characters."]

  /** The documented sentence, split at spaces, gives `Words`. */
  lemma SentenceWords(text: string)
    requires text == "The String global object is a constructor for strings, or a sequence of characters."
    ensures Split(text, ' ') == Words
  {
    SentenceJoin(text);
    SplitOfJoin();
  }

  lemma SentenceJoin(text: string)
    requires text == "The String global object is a constructor for strings, or a sequence of characters."
    ensures text == Join(Words, ' ')
  {
    var lines := ["The String global object", "is a constructor for", "strings, or a sequence of", "characters."];
    WordsOfLines(Words, lines);
    SentenceOfLines(lines, text);
  }

  lemma SplitOfJoin()
    ensures Split(Join(Words, ' '), ' ') == Words
  {
    NoSpaceInWords(Words);
    SplitJoin(Words, ' ');
  }

  /** The words joined by spaces are the lines of the 26-column layout
      joined by spaces. */
  lemma WordsOfLines(words: seq<string>, lines: seq<string>)
    requires words == Words
    requires lines == ["The String global object", "is a constructor for", "strings, or a sequence of", "characters."]
    ensures Join(words, ' ') == Join(lines, ' ')
  {
    Wrap26From0(words, [0, 4, 8, 13, 14], lines);
    LayoutJoin(words, [0, 4, 8, 13, 14], 26, lines);
  }

  /** The lines of a layout of all the words, joined by spaces, are the
      words joined by spaces. */
  lemma LayoutJoin(words: seq<string>, bs: seq<nat>, cols: int, lines: seq<string>)
    requires Greedy(words, bs, 0, |words|, cols) && LinesAt(words, bs, 0, |words|, cols) == lines
    ensures Join(words, ' ') == Join(lines, ' ')
  {
    LinesJoin(words, bs, 0, |words|, cols);
    assert words[0..|words|] == words;
  }

  lemma NoSpaceInWords(words: seq<string>)
    requires words == Words
    ensures forall k :: 0 <= k < |words| ==> ' ' !in words[k]
  {
  }

  /** The lines of the 26-column layout, joined by spaces, are the sentence. */
  lemma SentenceOfLines(lines: seq<string>, text: string)
    requires lines == ["The String global object", "is a constructor for", "strings, or a sequence of", "characters."]
    requires text == "The String global object is a constructor for strings, or a sequence of characters."
    ensures Join(lines, ' ') == text
  {
    assert lines[..1] == [lines[0]];
    assert lines[..2] == lines[..1] + [lines[1]];
    JoinSnoc(lines[..1], lines[1], ' ');
    SentenceGlue1(Join(lines[..1], ' '), lines[1]);
    assert lines[..3] == lines[..2] + [lines[2]];
    JoinSnoc(lines[..2], lines[2], ' ');
    SentenceGlue2(Join(lines[..2], ' '), lines[2]);
    assert lines[..4] == lines[..3] + [lines[3]];
    JoinSnoc(lines[..3], lines[3], ' ');
    SentenceGlue3(Join(lines[..3], ' '), lines[3]);
    assert lines[..4] == lines;
  }

  lemma SentenceGlue1(x: string, y: string)
    requires x == "The String global object" && y == "is a constructor for"
    ensures x + [' '] + y == "The String global object is a constructor for"
  {
  }

  lemma SentenceGlue2(x: string, y: string)
    requires x == "The String global object is a constructor for" && y == "strings, or a sequence of"
    ensures x + [' '] + y == "The String global object is a constructor for strings, or a sequence of"
  {
  }

  lemma SentenceGlue3(x: string, y: string)
    requires x == "The String global object is a constructor for strings, or a sequence of" && y == "characters."
    ensures x + [' '] + y == "The String global object is a constructor for strings, or a sequence of characters."
  {
  }

  /** A greedy layout with one more line in front, given by its text. */
  lemma LineInFront(words: seq<string>, bs: seq<nat>, hi: nat, cols: int, lines: seq<string>)
    requires |bs| >= 2 && |lines| >= 1 && bs[0] < bs[1] <= |words|
    requires Join(words[bs[0]..bs[1]], ' ') == lines[0]
    requires |lines[0]| <= cols && (bs[1] < |words| ==> |lines[0]| + 1 + |words[bs[1]]| > cols)
    requires Greedy(words, bs[1..], bs[1], hi, cols) && LinesAt(words, bs[1..], bs[1], hi, cols) == lines[1..]
    ensures Greedy(words, bs, bs[0], hi, cols)
    ensures LinesAt(words, bs, bs[0], hi, cols) == lines
  {
    var a, b := bs[0], bs[1];
    JoinWidth(words, a, b);
    if b < |words| {
      assert SumLen(words, a, b + 1) == SumLen(words, a, b) + |words[b]|;
    }
    assert lines == [lines[0]] + lines[1..];
  }

  /** The layout that is just its end. */
  lemma LayoutEnd(words: seq<string>, hi: nat, cols: int)
    requires hi <= |words|
    ensures Greedy(words, [hi], hi, hi, cols) && LinesAt(words, [hi], hi, hi, cols) == []
  {
  }

  lemma JoinCons(w: string, rest: seq<string>, sep: char)
    requires |rest| > 0
    ensures Join([w] + rest, sep) == w + [sep] + Join(rest, sep)
  {
    assert ([w] + rest)[1..] == rest;
  }

  /** wrapText at 26 columns, as documented. */
  lemma Wrap26(text: string)
    requires text == "The String global object is a constructor for strings, or a sequence of characters."
    ensures WrapText(text, 26) == Finished(["The String global object", "is a constructor for", "strings, or a sequence of", "characters."])
  {
    SentenceWords(text);
    Wrap26Words(Words);
  }

  lemma Wrap26Words(words: seq<string>)
    requires words == Words
    ensures Wrap(words, 0, 26) == Finished(["The String global object", "is a constructor for", "strings, or a sequence of", "characters."])
  {
    Wrap26From0(words, [0, 4, 8, 13, 14], ["The String global object", "is a constructor for", "strings, or a sequence of", "characters."]);
    WrapOfGreedy(words, [0, 4, 8, 13, 14], 0, 14, 26);
  }

  lemma Wrap26From14(words: seq<string>, bs: seq<nat>, lines: seq<string>)
    requires words == Words && bs == [14] && lines == []
    ensures Greedy(words, bs, 14, 14, 26) && LinesAt(words, bs, 14, 14, 26) == lines
  {
    LayoutEnd(words, 14, 26);
  }

  lemma Wrap26From13(words: seq<string>, bs: seq<nat>, lines: seq<string>)
    requires words == Words && bs == [13, 14] && lines == ["characters."]
    ensures Greedy(words, bs, 13, 14, 26) && LinesAt(words, bs, 13, 14, 26) == lines
  {
    Wrap26From14(words, bs[1..], lines[1..]);
    LineOfWords13To14(words);
    LineInFront(words, bs, 14, 26, lines);
  }

  lemma Wrap26From8(words: seq<string>, bs: seq<nat>, lines: seq<string>)
    requires words == Words && bs == [8, 13, 14] && lines == ["strings, or a sequence of", "characters."]
    ensures Greedy(words, bs, 8, 14, 26) && LinesAt(words, bs, 8, 14, 26) == lines
  {
    Wrap26From13(words, bs[1..], lines[1..]);
    LineOfWords8To13(words);
    LineInFront(words, bs, 14, 26, lines);
  }

  lemma Wrap26From4(words: seq<string>, bs: seq<nat>, lines: seq<string>)
    requires words == Words && bs == [4, 8, 13, 14] && lines == ["is a constructor for", "strings, or a sequence of", "characters."]
    ensures Greedy(words, bs, 4, 14, 26) && LinesAt(words, bs, 4, 14, 26) == lines
  {
    Wrap26From8(words, bs[1..], lines[1..]);
    LineOfWords4To8(words);
    LineInFront(words, bs, 14, 26, lines);
  }

  lemma Wrap26From0(words: seq<string>, bs: seq<nat>, lines: seq<string>)
    requires words == Words && bs == [0, 4, 8, 13, 14] && lines == ["The String global object", "is a constructor for", "strings, or a sequence of", "characters."]
    ensures Greedy(words, bs, 0, 14, 26) && LinesAt(words, bs, 0, 14, 26) == lines
  {
    Wrap26From4(words, bs[1..], lines[1..]);
    LineOfWords0To4(words);
    LineInFront(words, bs, 14, 26, lines);
  }

  /** wrapText at 12 columns, as documented. */
  lemma Wrap12(text: string)
    requires text == "The String global object is a constructor for strings, or a sequence of characters."
    ensures WrapText(text, 12) == Finished(["The String", "global", "object is a", "constructor", "for strings,", "or a", "sequence of", "characters."])
  {
    SentenceWords(text);
    Wrap12Words(Words);
  }

  lemma Wrap12Words(words: seq<string>)
    requires words == Words
    ensures Wrap(words, 0, 12) == Finished(["The String", "global", "object is a", "constructor", "for strings,", "or a", "sequence of", "characters."])
  {
    Wrap12From0(words, [0, 2, 3, 6, 7, 9, 11, 13, 14], ["The String", "global", "object is a", "constructor", "for strings,", "or a", "sequence of", "characters."]);
    WrapOfGreedy(words, [0, 2, 3, 6, 7, 9, 11, 13, 14], 0, 14, 12);
  }

  lemma Wrap12From14(words: seq<string>, bs: seq<nat>, lines: seq<string>)
    requires words == Words && bs == [14] && lines == []
    ensures Greedy(words, bs, 14, 14, 12) && LinesAt(words, bs, 14, 14, 12) == lines
  {
    LayoutEnd(words, 14, 12);
  }

  lemma Wrap12From13(words: seq<string>, bs: seq<nat>, lines: seq<string>)
    requires words == Words && bs == [13, 14] && lines == ["characters."]
    ensures Greedy(words, bs, 13, 14, 12) && LinesAt(words, bs, 13, 14, 12) == lines
  {
    Wrap12From14(words, bs[1..], lines[1..]);
    LineOfWords13To14(words);
    LineInFront(words, bs, 14, 12, lines);
  }

  lemma Wrap12From11(words: seq<string>, bs: seq<nat>, lines: seq<string>)
    requires words == Words && bs == [11, 13, 14] && lines == ["sequence of", "characters."]
    ensures Greedy(words, bs, 11, 14, 12) && LinesAt(words, bs, 11, 14, 12) == lines
  {
    Wrap12From13(words, bs[1..], lines[1..]);
    LineOfWords11To13(words);
    LineInFront(words, bs, 14, 12, lines);
  }

  lemma Wrap12From9(words: seq<string>, bs: seq<nat>, lines: seq<string>)
    requires words == Words && bs == [9, 11, 13, 14] && lines == ["or a", "sequence of", "characters."]
    ensures Greedy(words, bs, 9, 14, 12) && LinesAt(words, bs, 9, 14, 12) == lines
  {
    Wrap12From11(words, bs[1..], lines[1..]);
    LineOfWords9To11(words);
    LineInFront(words, bs, 14, 12, lines);
  }

  lemma Wrap12From7(words: seq<string>, bs: seq<nat>, lines: seq<string>)
    requires words == Words && bs == [7, 9, 11, 13, 14] && lines == ["for strings,", "or a", "sequence of", "characters."]
    ensures Greedy(words, bs, 7, 14, 12) && LinesAt(words, bs, 7, 14, 12) == lines
  {
    Wrap12From9(words, bs[1..], lines[1..]);
    LineOfWords7To9(words);
    LineInFront(words, bs, 14, 12, lines);
  }

  lemma Wrap12From6(words: seq<string>, bs: seq<nat>, lines: seq<string>)
    requires words == Words && bs == [6, 7, 9, 11, 13, 14] && lines == ["constructor", "for strings,", "or a", "sequence of", "characters."]
    ensures Greedy(words, bs, 6, 14, 12) && LinesAt(words, bs, 6, 14, 12) == lines
  {
    Wrap12From7(words, bs[1..], lines[1..]);
    LineOfWords6To7(words);
    LineInFront(words, bs, 14, 12, lines);
  }

  lemma Wrap12From3(words: seq<string>, bs: seq<nat>, lines: seq<string>)
    requires words == Words && bs == [3, 6, 7, 9, 11, 13, 14] && lines == ["object is a", "constructor", "for strings,", "or a", "sequence of", "characters."]
    ensures Greedy(words, bs, 3, 14, 12) && LinesAt(words, bs, 3, 14, 12) == lines
  {
    Wrap12From6(words, bs[1..], lines[1..]);
    LineOfWords3To6(words);
    LineInFront(words, bs, 14, 12, lines);
  }

  lemma Wrap12From2(words: seq<string>, bs: seq<nat>, lines: seq<string>)
    requires words == Words && bs == [2, 3, 6, 7, 9, 11, 13, 14] && lines == ["global", "object is a", "constructor", "for strings,", "or a", "sequence of", "characters."]
    ensures Greedy(words, bs, 2, 14, 12) && LinesAt(words, bs, 2, 14, 12) == lines
  {
    Wrap12From3(words, bs[1..], lines[1..]);
    LineOfWords2To3(words);
    LineInFront(words, bs, 14, 12, lines);
  }

  lemma Wrap12From0(words: seq<string>, bs: seq<nat>, lines: seq<string>)
    requires words == Words && bs == [0, 2, 3, 6, 7, 9, 11, 13, 14] && lines == ["The String", "global", "object is a", "constructor", "for strings,", "or a", "sequence of", "characters."]
    ensures Greedy(words, bs, 0, 14, 12) && LinesAt(words, bs, 0, 14, 12) == lines
  {
    Wrap12From2(words, bs[1..], lines[1..]);
    LineOfWords0To2(words);
    LineInFront(words, bs, 14, 12, lines);
  }

  lemma LineOfWords0To2(words: seq<string>)
    requires words == Words
    ensures Join(words[0..2], ' ') == "The String"
  {
    var w0, w1 := words[0], words[1];
    var r1 := [w1];
    var r0 := [w0] + r1;
    assert words[0..2] == r0;
    JoinCons(w0, r1, ' ');
    GlueWords0To2(w0, w1);
  }

  lemma GlueWords0To2(w0: string, w1: string)
    requires w0 == "The" && w1 == "String"
    ensures w0 + [' '] + (w1) == "The String"
  {
  }

  lemma LineOfWords0To4(words: seq<string>)
    requires words == Words
    ensures Join(words[0..4], ' ') == "The String global object"
  {
    var w0, w1, w2, w3 := words[0], words[1], words[2], words[3];
    var r3 := [w3];
    var r2 := [w2] + r3;
    var r1 := [w1] + r2;
    var r0 := [w0] + r1;
    assert words[0..4] == r0;
    JoinCons(w2, r3, ' ');
    JoinCons(w1, r2, ' ');
    JoinCons(w0, r1, ' ');
    GlueWords0To4(w0, w1, w2, w3);
  }

  lemma GlueWords0To4(w0: string, w1: string, w2: string, w3: string)
    requires w0 == "The" && w1 == "String" && w2 == "global" && w3 == "object"
    ensures w0 + [' '] + (w1 + [' '] + (w2 + [' '] + (w3))) == "The String global object"
  {
  }

  lemma LineOfWords2To3(words: seq<string>)
    requires words == Words
    ensures Join(words[2..3], ' ') == "global"
  {
    assert words[2..3] == [words[2]];
  }

  lemma LineOfWords3To6(words: seq<string>)
    requires words == Words
    ensures Join(words[3..6], ' ') == "object is a"
  {
    var w3, w4, w5 := words[3], words[4], words[5];
    var r5 := [w5];
    var r4 := [w4] + r5;
    var r3 := [w3] + r4;
    assert words[3..6] == r3;
    JoinCons(w4, r5, ' ');
    JoinCons(w3, r4, ' ');
    GlueWords3To6(w3, w4, w5);
  }

  lemma GlueWords3To6(w3: string, w4: string, w5: string)
    requires w3 == "object" && w4 == "is" && w5 == "a"
    ensures w3 + [' '] + (w4 + [' '] + (w5)) == "object is a"
  {
  }

  lemma LineOfWords4To8(words: seq<string>)
    requires words == Words
    ensures Join(words[4..8], ' ') == "is a constructor for"
  {
    var w4, w5, w6, w7 := words[4], words[5], words[6], words[7];
    var r7 := [w7];
    var r6 := [w6] + r7;
    var r5 := [w5] + r6;
    var r4 := [w4] + r5;
    assert words[4..8] == r4;
    JoinCons(w6, r7, ' ');
    JoinCons(w5, r6, ' ');
    JoinCons(w4, r5, ' ');
    GlueWords4To8(w4, w5, w6, w7);
  }

  lemma GlueWords4To8(w4: string, w5: string, w6: string, w7: string)
    requires w4 == "is" && w5 == "a" && w6 == "constructor" && w7 == "for"
    ensures w4 + [' '] + (w5 + [' '] + (w6 + [' '] + (w7))) == "is a constructor for"
  {
  }

  lemma LineOfWords6To7(words: seq<string>)
    requires words == Words
    ensures Join(words[6..7], ' ') == "constructor"
  {
    assert words[6..7] == [words[6]];
  }

  lemma LineOfWords7To9(words: seq<string>)
    requires words == Words
    ensures Join(words[7..9], ' ') == "for strings,"
  {
    var w7, w8 := words[7], words[8];
    var r8 := [w8];
    var r7 := [w7] + r8;
    assert words[7..9] == r7;
    JoinCons(w7, r8, ' ');
    GlueWords7To9(w7, w8);
  }

  lemma GlueWords7To9(w7: string, w8: string)
    requires w7 == "for" && w8 == "strings,"
    ensures w7 + [' '] + (w8) == "for strings,"
  {
  }

  lemma LineOfWords8To13(words: seq<string>)
    requires words == Words
    ensures Join(words[8..13], ' ') == "strings, or a sequence of"
  {
    var w8, w9, w10, w11, w12 := words[8], words[9], words[10], words[11], words[12];
    var r12 := [w12];
    var r11 := [w11] + r12;
    var r10 := [w10] + r11;
    var r9 := [w9] + r10;
    var r8 := [w8] + r9;
    assert words[8..13] == r8;
    JoinCons(w11, r12, ' ');
    JoinCons(w10, r11, ' ');
    JoinCons(w9, r10, ' ');
    JoinCons(w8, r9, ' ');
    GlueWords8To13(w8, w9, w10, w11, w12);
  }

  lemma GlueWords8To13(w8: string, w9: string, w10: string, w11: string, w12: string)
    requires w8 == "strings," && w9 == "or" && w10 == "a" && w11 == "sequence" && w12 == "of"
    ensures w8 + [' '] + (w9 + [' '] + (w10 + [' '] + (w11 + [' '] + (w12)))) == "strings, or a sequence of"
  {
  }

  lemma LineOfWords9To11(words: seq<string>)
    requires words == Words
    ensures Join(words[9..11], ' ') == "or a"
  {
    var w9, w10 := words[9], words[10];
    var r10 := [w10];
    var r9 := [w9] + r10;
    assert words[9..11] == r9;
    JoinCons(w9, r10, ' ');
    GlueWords9To11(w9, w10);
  }

  lemma GlueWords9To11(w9: string, w10: string)
    requires w9 == "or" && w10 == "a"
    ensures w9 + [' '] + (w10) == "or a"
  {
  }

  lemma LineOfWords11To13(words: seq<string>)
    requires words == Words
    ensures Join(words[11..13], ' ') == "sequence of"
  {
    var w11, w12 := words[11], words[12];
    var r12 := [w12];
    var r11 := [w11] + r12;
    assert words[11..13] == r11;
    JoinCons(w11, r12, ' ');
    GlueWords11To13(w11, w12);
  }

  lemma GlueWords11To13(w11: string, w12: string)
    requires w11 == "sequence" && w12 == "of"
    ensures w11 + [' '] + (w12) == "sequence of"
  {
  }

  lemma LineOfWords13To14(words: seq<string>)
    requires words == Words
    ensures Join(words[13..14], ' ') == "characters."
  {
    assert words[13..14] == [words[13]];
  }
}
