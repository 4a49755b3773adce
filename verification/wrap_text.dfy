/** wrapText: breaks a text into lines of at most `columns` characters,
    breaking only between the words of `text.split(' ')`. Each line takes
    as many of the remaining words as fit; a word that fits on no line
    stops the generator for good, which then yields the empty string
    forever. */
module WordWrap {
  import opened StringUtils

  /** What the generator yields: a finite list of lines, or some lines
      followed by the empty string without end, stuck in front of word
      `at`. */
  datatype Wrapping =
    | Finished(lines: seq<string>)
    | Spinning(lines: seq<string>, at: nat)

  /** The same outcome with `first` yielded before it. */
  function Prepend(first: seq<string>, w: Wrapping): (r: Wrapping)
    ensures r.Spinning? == w.Spinning? && r.lines == first + w.lines
    ensures w.Spinning? ==> r.at == w.at
  {
    match w
    case Finished(lines) => Finished(first + lines)
    case Spinning(lines, at) => Spinning(first + lines, at)
  }

  lemma PrependTwice(lines: seq<string>, line: string, w: Wrapping)
    ensures Prepend(lines, Prepend([line], w)) == Prepend(lines + [line], w)
  {
    AppendAssoc(lines, [line], w.lines);
  }

  /** The total length of `words[a..b]`. */
  function SumLen(words: seq<string>, a: nat, b: nat): nat
    requires a <= b <= |words|
    decreases b - a
  {
    if a == b then 0 else SumLen(words, a, b - 1) + |words[b - 1]|
  }

  /** The length of the line holding `words[a..b]`: the words and one space
      between each two. */
  function Width(words: seq<string>, a: nat, b: nat): int
    requires a < b <= |words|
  {
    SumLen(words, a, b) + (b - a - 1)
  }

  /** The greedy end of the line starting at word `l`, looking on from word
      `i`: the line takes words while the next one still fits. */
  function Fill(words: seq<string>, l: nat, i: nat, cols: int): (e: nat)
    requires l <= i <= |words|
    requires i > l ==> Width(words, l, i) <= cols
    ensures i <= e <= |words|
    ensures e > l ==> Width(words, l, e) <= cols
    ensures e < |words| ==> Width(words, l, e + 1) > cols
    decreases |words| - i
  {
    if i < |words| && Width(words, l, i + 1) <= cols then Fill(words, l, i + 1, cols) else i
  }

  /** The lines of `words[l..]`. */
  function Wrap(words: seq<string>, l: nat, cols: int): (w: Wrapping)
    requires l <= |words|
    ensures w.Spinning? ==> l <= w.at < |words| && |words[w.at]| > cols
    decreases |words| - l
  {
    if l == |words| then Finished([])
    else
      var e := Fill(words, l, l, cols);
      if e == l then
        assert SumLen(words, l, l) == 0;
        Spinning([], l)
      else Prepend([Join(words[l..e], ' ')], Wrap(words, e, cols))
  }

  /** wrapText(text, columns). */
  function WrapText(text: string, cols: int): Wrapping
  {
    Wrap(Split(text, ' '), 0, cols)
  }

  /** Where the yielded lines stop: after the last word, or in front of the
      word that fits on no line. */
  function End(words: seq<string>, w: Wrapping): nat
  {
    if w.Finished? then |words| else w.at
  }

  // ---------------------------------------------------------------------
  // Greedy layouts

  /** `words[a..b]` is a line of the greedy layout: not empty, no longer than
      `cols`, and the next word, if any, would not fit on it. */
  predicate LineOk(words: seq<string>, a: nat, b: nat, cols: int)
  {
    a < b <= |words| && Width(words, a, b) <= cols
    && (b < |words| ==> Width(words, a, b + 1) > cols)
  }

  /** `bs` cuts `words[lo..hi]` into the lines of a greedy layout: it starts
      at `lo`, ends at `hi`, and each two neighbours bound one line. */
  predicate Greedy(words: seq<string>, bs: seq<nat>, lo: nat, hi: nat, cols: int)
    decreases |bs|
  {
    |bs| >= 1 && bs[0] == lo && lo <= hi <= |words|
    && if |bs| == 1 then lo == hi
       else LineOk(words, lo, bs[1], cols) && Greedy(words, bs[1..], bs[1], hi, cols)
  }

  /** The lines that the cuts `bs` make. */
  function LinesAt(words: seq<string>, bs: seq<nat>, lo: nat, hi: nat, cols: int): (lines: seq<string>)
    requires Greedy(words, bs, lo, hi, cols)
    ensures |lines| == |bs| - 1
    decreases |bs|
  {
    if |bs| == 1 then [] else [Join(words[lo..bs[1]], ' ')] + LinesAt(words, bs[1..], bs[1], hi, cols)
  }

  /** A layout stops where it should: at the end of the words, or in front
      of a word longer than a line. */
  predicate Stops(words: seq<string>, hi: nat, cols: int)
    requires hi <= |words|
  {
    hi == |words| || |words[hi]| > cols
  }

  // ---------------------------------------------------------------------
  // Widths

  lemma {:induction false} SumLenSplit(words: seq<string>, a: nat, m: nat, b: nat)
    requires a <= m <= b <= |words|
    ensures SumLen(words, a, b) == SumLen(words, a, m) + SumLen(words, m, b)
    decreases b - m
  {
    if m < b {
      SumLenSplit(words, a, m, b - 1);
    }
  }

  /** A longer line is at least as wide. */
  lemma WidthMono(words: seq<string>, a: nat, b: nat, c: nat)
    requires a < b <= c <= |words|
    ensures Width(words, a, b) <= Width(words, a, c)
  {
    SumLenSplit(words, a, b, c);
  }

  /** Each word of a line is at most as long as the line. */
  lemma {:induction false} WordInLine(words: seq<string>, a: nat, b: nat, k: nat)
    requires a <= k < b <= |words|
    ensures |words[k]| <= Width(words, a, b)
  {
    SumLenSplit(words, a, k, b);
    SumLenSplit(words, k, k + 1, b);
    assert SumLen(words, k, k) == 0;
  }

  /** The width of a line is the length of its text. */
  lemma {:induction false} JoinWidth(words: seq<string>, a: nat, b: nat)
    requires a < b <= |words|
    ensures |Join(words[a..b], ' ')| == Width(words, a, b)
    decreases b - a
  {
    if b == a + 1 {
      assert words[a..b] == [words[a]];
      assert SumLen(words, a, a) == 0;
    } else {
      JoinWidth(words, a, b - 1);
      assert words[a..b] == words[a..b - 1] + [words[b - 1]];
      JoinSnoc(words[a..b - 1], words[b - 1], ' ');
    }
  }

  // ---------------------------------------------------------------------
  // The wrapper lays out greedily

  /** The greedy line from `l` ends at the cut a greedy layout makes. */
  lemma LineEnd(words: seq<string>, l: nat, b: nat, cols: int)
    requires LineOk(words, l, b, cols)
    ensures Fill(words, l, l, cols) == b
  {
    var e := Fill(words, l, l, cols);
    if e < b {
      WidthMono(words, l, e + 1, b);
    } else if e > b {
      WidthMono(words, l, b + 1, e);
    }
  }

  /** The wrapper yields the lines of any greedy layout that stops where it
      should. */
  lemma {:induction false} WrapOfGreedy(words: seq<string>, bs: seq<nat>, lo: nat, hi: nat, cols: int)
    requires Greedy(words, bs, lo, hi, cols) && Stops(words, hi, cols)
    ensures Wrap(words, lo, cols)
      == if hi == |words| then Finished(LinesAt(words, bs, lo, hi, cols))
         else Spinning(LinesAt(words, bs, lo, hi, cols), hi)
    decreases |bs|
  {
    if |bs| == 1 {
      if lo < |words| {
        assert Width(words, lo, lo + 1) == |words[lo]| by {
          assert SumLen(words, lo, lo) == 0;
        }
      }
    } else {
      LineEnd(words, lo, bs[1], cols);
      WrapOfGreedy(words, bs[1..], bs[1], hi, cols);
    }
  }

  /** Conversely, what the wrapper yields is the greedy layout of the words
      up to where it stops. */
  lemma {:induction false} GreedyOfWrap(words: seq<string>, lo: nat, cols: int)
    requires lo <= |words|
    ensures var w := Wrap(words, lo, cols);
      && Stops(words, End(words, w), cols)
      && exists bs :: Greedy(words, bs, lo, End(words, w), cols) && w.lines == LinesAt(words, bs, lo, End(words, w), cols)
    decreases |words| - lo
  {
    var w := Wrap(words, lo, cols);
    if lo == |words| || Fill(words, lo, lo, cols) == lo {
      assert Greedy(words, [lo], lo, End(words, w), cols);
    } else {
      var e := Fill(words, lo, lo, cols);
      GreedyOfWrap(words, e, cols);
      var rest := Wrap(words, e, cols);
      var hi := End(words, rest);
      var cs :| Greedy(words, cs, e, hi, cols) && rest.lines == LinesAt(words, cs, e, hi, cols);
      var bs := [lo] + cs;
      assert bs[1..] == cs;
      assert Greedy(words, bs, lo, hi, cols);
      assert End(words, w) == hi;
    }
  }

  /** Two greedy layouts of the same words are the same layout. */
  lemma {:induction false} GreedyUnique(words: seq<string>, bs: seq<nat>, cs: seq<nat>, lo: nat, hi: nat, cols: int)
    requires Greedy(words, bs, lo, hi, cols) && Greedy(words, cs, lo, hi, cols)
    ensures bs == cs
    decreases |bs|
  {
    if |bs| > 1 && |cs| > 1 {
      LineEnd(words, lo, bs[1], cols);
      LineEnd(words, lo, cs[1], cols);
      GreedyUnique(words, bs[1..], cs[1..], bs[1], hi, cols);
      assert bs == [lo] + bs[1..] && cs == [lo] + cs[1..];
    }
  }

  /** A layout never ends before it starts. */
  lemma {:induction false} GreedyBounds(words: seq<string>, bs: seq<nat>, lo: nat, hi: nat, cols: int)
    requires Greedy(words, bs, lo, hi, cols)
    ensures lo <= hi && (|bs| > 1 ==> lo < hi)
    decreases |bs|
  {
    if |bs| > 1 {
      GreedyBounds(words, bs[1..], bs[1], hi, cols);
    }
  }

  // ---------------------------------------------------------------------
  // What the lines hold

  /** Every line of a greedy layout fits in `cols` columns. */
  lemma {:induction false} LinesFit(words: seq<string>, bs: seq<nat>, lo: nat, hi: nat, cols: int)
    requires Greedy(words, bs, lo, hi, cols)
    ensures forall line <- LinesAt(words, bs, lo, hi, cols) :: |line| <= cols
    decreases |bs|
  {
    if |bs| > 1 {
      JoinWidth(words, lo, bs[1]);
      LinesFit(words, bs[1..], bs[1], hi, cols);
    }
  }

  /** The lines of a greedy layout, joined by spaces, are its words joined
      by spaces: no word is lost, split or moved. */
  lemma {:induction false} LinesJoin(words: seq<string>, bs: seq<nat>, lo: nat, hi: nat, cols: int)
    requires Greedy(words, bs, lo, hi, cols)
    ensures Join(LinesAt(words, bs, lo, hi, cols), ' ') == Join(words[lo..hi], ' ')
    decreases |bs|
  {
    GreedyBounds(words, bs, lo, hi, cols);
    if |bs| > 1 {
      var m := bs[1];
      var first, rest := Join(words[lo..m], ' '), LinesAt(words, bs[1..], m, hi, cols);
      LinesJoin(words, bs[1..], m, hi, cols);
      GreedyBounds(words, bs[1..], m, hi, cols);
      if m < hi {
        assert words[lo..hi] == words[lo..m] + words[m..hi];
        JoinAppend(words[lo..m], words[m..hi], ' ');
        JoinAppend([first], rest, ' ');
        assert Join([first], ' ') == first;
      } else {
        assert rest == [];
        assert [first] + rest == [first];
      }
    }
  }

  /** The generator spins exactly when some word is longer than a line, and
      then it is stuck in front of the first such word. */
  lemma {:induction false} SpinsIff(words: seq<string>, lo: nat, cols: int)
    requires lo <= |words|
    ensures Wrap(words, lo, cols).Spinning? <==> exists k :: lo <= k < |words| && |words[k]| > cols
    ensures Wrap(words, lo, cols).Spinning? ==> forall k :: lo <= k < Wrap(words, lo, cols).at ==> |words[k]| <= cols
    decreases |words| - lo
  {
    if lo < |words| {
      var e := Fill(words, lo, lo, cols);
      if e > lo {
        SpinsIff(words, e, cols);
        forall k | lo <= k < e
          ensures |words[k]| <= cols
        {
          WordInLine(words, lo, e, k);
        }
      }
    }
  }

  /** When every word fits on a line, the text comes out as finitely many
      lines, each at most `cols` long, which joined by spaces give the text
      back. */
  lemma WrapTextLines(text: string, cols: int)
    requires forall w <- Split(text, ' ') :: |w| <= cols
    ensures WrapText(text, cols).Finished?
    ensures forall line <- WrapText(text, cols).lines :: |line| <= cols
    ensures Join(WrapText(text, cols).lines, ' ') == text
  {
    var words := Split(text, ' ');
    SpinsIff(words, 0, cols);
    GreedyOfWrap(words, 0, cols);
    var w := WrapText(text, cols);
    var bs :| Greedy(words, bs, 0, |words|, cols) && w.lines == LinesAt(words, bs, 0, |words|, cols);
    LinesFit(words, bs, 0, |words|, cols);
    LinesJoin(words, bs, 0, |words|, cols);
    assert words[0..|words|] == words;
    JoinSplit(text, ' ');
  }

  // ---------------------------------------------------------------------
  // The generator's loops

  /** The source's loops: the inner loop runs over the words that fit on
      the next line, and the line is built by writing a space before each
      of its words and dropping the first character. A line that takes no
      word means the generator would yield the empty string forever. */
  method WrapLines(text: string, cols: int) returns (w: Wrapping)
    ensures w == WrapText(text, cols)
  {
    var words := Split(text, ' ');
    var lines: seq<string> := [];
    var i := 0;
    while i < |words|
      invariant i <= |words|
      invariant WrapText(text, cols) == Prepend(lines, Wrap(words, i, cols))
      decreases |words| - i
    {
      var l := i;
      i := TakeWords(words, l, cols);
      if i == l {
        return Spinning(lines, l);
      }
      var line := LineOf(words, l, i);
      LineEnd(words, l, i, cols);
      assert Wrap(words, l, cols) == Prepend([line], Wrap(words, i, cols));
      PrependTwice(lines, line, Wrap(words, i, cols));
      lines := lines + [line];
    }
    w := Finished(lines);
  }

  /** The inner loop: `s` is the length of the words taken so far, each
      counted with the space after it, and the next word is taken while
      `s` plus its length is at most `cols`. */
  method TakeWords(words: seq<string>, l: nat, cols: int) returns (i: nat)
    requires l <= |words|
    ensures l <= i <= |words|
    ensures i > l ==> Width(words, l, i) <= cols
    ensures i < |words| ==> Width(words, l, i + 1) > cols
  {
    i := l;
    var s := 0;
    while i < |words| && s + |words[i]| <= cols
      invariant l <= i <= |words|
      invariant s == SumLen(words, l, i) + (i - l)
      invariant i > l ==> Width(words, l, i) <= cols
      decreases |words| - i
    {
      s := s + |words[i]| + 1;
      i := i + 1;
    }
    if i < |words| {
      assert s + |words[i]| == Width(words, l, i + 1);
    }
  }

  /** The line of `words[l..i]`, built as the source builds it. */
  method LineOf(words: seq<string>, l: nat, i: nat) returns (line: string)
    requires l < i <= |words|
    ensures line == Join(words[l..i], ' ')
  {
    var ar, k := "", l;
    while k < i
      invariant l <= k <= i
      invariant ar == Led(words[l..k], ' ')
    {
      assert words[l..k + 1][..k - l] == words[l..k];
      ar := ar + " " + words[k];
      k := k + 1;
    }
    LedJoin(words[l..i], ' ');
    line := ar[1..];
  }
}
