/** The documented extractRanges examples, and the inputs on which the
    source's loop loses the last value. Each example names the tokens the
    text is written from; `Ranges.TokensUnique` shows they are the intended
    ones. */
module RangesExamples {
  import opened StringUtils
  import opened Ranges

  /** Well-formed tokens that spell out a list ending inside a run are what
      the source writes for it. */
  lemma WrittenFrom(ts: seq<Token>, nums: seq<int>)
    requires WellFormed(ts) && Flatten(ts) == nums
    requires |nums| > 0 && !IsBoundary(nums, |nums| - 1)
    ensures Render(AsWrittenTokens(nums)) == Render(ts)
  {
    TokensUnique(ts, nums);
    AsWrittenLosesLast(nums);
  }

  lemma ZeroToFive(nums: seq<int>)
    requires nums == [0, 1, 2, 3, 4, 5]
    ensures Render(AsWrittenTokens(nums)) == "0-5"
  {
    var ts := [Span(0, 5)];
    ZeroToFiveTokens(ts, nums);
    WrittenFrom(ts, nums);
    ZeroToFiveText(ts);
  }

  lemma ZeroToFiveTokens(ts: seq<Token>, nums: seq<int>)
    requires ts == [Span(0, 5)] && nums == [0, 1, 2, 3, 4, 5]
    ensures WellFormed(ts) && Flatten(ts) == nums
  {
    assert Flatten(ts) == Flatten([]) + Values(Span(0, 5));
    assert Values(Span(0, 5)) == nums;
  }

  lemma ZeroToFiveText(ts: seq<Token>)
    requires ts == [Span(0, 5)]
    ensures Render(ts) == "0-5"
  {
    assert TokenStrings(ts) == [IntToString(0) + "-" + IntToString(5)];
  }

  lemma OneFourFive(nums: seq<int>)
    requires nums == [1, 4, 5]
    ensures Render(AsWrittenTokens(nums)) == "1,4,5"
  {
    var ts := [Single(1), Single(4), Single(5)];
    OneFourFiveTokens(ts, nums);
    WrittenFrom(ts, nums);
    OneFourFiveText(ts);
  }

  lemma OneFourFiveTokens(ts: seq<Token>, nums: seq<int>)
    requires ts == [Single(1), Single(4), Single(5)] && nums == [1, 4, 5]
    ensures WellFormed(ts) && Flatten(ts) == nums
  {
    assert SeamAt(ts, 1) && SeamAt(ts, 2) && NoTripleAt(ts, 2);
    assert ts == Singles(nums);
    FlattenSingles(nums);
  }

  lemma OneFourFiveText(ts: seq<Token>)
    requires ts == [Single(1), Single(4), Single(5)]
    ensures Render(ts) == "1,4,5"
  {
    var t0, t1, t2 := Single(1), Single(4), Single(5);
    var r2, r1 := [t2], [t1, t2];
    assert r1 == [t1] + r2 && ts == [t0] + r1;
    RenderCons(t2, []);
    assert [t2] + [] == r2;
    assert IntToString(5) == "5";
    assert Render(r2) == "5";
    RenderCons(t1, r2);
    assert IntToString(4) == "4";
    assert Render(r1) == "4,5";
    RenderCons(t0, r1);
    assert IntToString(1) == "1";
  }

  lemma ThreeRuns(nums: seq<int>)
    requires nums == [0, 1, 2, 5, 7, 8, 9]
    ensures Render(AsWrittenTokens(nums)) == "0-2,5,7-9"
  {
    var ts := [Span(0, 2), Single(5), Span(7, 9)];
    ThreeRunsTokens(ts, nums);
    WrittenFrom(ts, nums);
    ThreeRunsText(ts);
  }

  lemma ThreeRunsTokens(ts: seq<Token>, nums: seq<int>)
    requires ts == [Span(0, 2), Single(5), Span(7, 9)] && nums == [0, 1, 2, 5, 7, 8, 9]
    ensures WellFormed(ts) && Flatten(ts) == nums
  {
    assert SeamAt(ts, 1) && SeamAt(ts, 2) && NoTripleAt(ts, 2);
    var a, b, c := [ts[0]], [ts[1]], [ts[2]];
    assert ts == (a + b) + c;
    FlattenAppend(a + b, c);
    FlattenAppend(a, b);
    OneSpan(a, 0, 2);
    OneSpan(c, 7, 9);
    assert Flatten(b) == Flatten([]) + Values(Single(5));
  }

  /** The values of a list holding one range. */
  lemma OneSpan(ts: seq<Token>, lo: int, hi: int)
    requires ts == [Span(lo, hi)] && lo + 2 == hi
    ensures Flatten(ts) == [lo, lo + 1, hi]
  {
    assert Flatten(ts) == Flatten([]) + Values(Span(lo, hi));
  }

  lemma ThreeRunsText(ts: seq<Token>)
    requires ts == [Span(0, 2), Single(5), Span(7, 9)]
    ensures Render(ts) == "0-2,5,7-9"
  {
    var t0, t1, t2 := Span(0, 2), Single(5), Span(7, 9);
    var r2, r1 := [t2], [t1, t2];
    assert r1 == [t1] + r2 && ts == [t0] + r1;
    RenderCons(t2, []);
    assert [t2] + [] == r2;
    assert IntToString(7) == "7" && IntToString(9) == "9";
    assert Render(r2) == "7-9";
    RenderCons(t1, r2);
    assert IntToString(5) == "5";
    assert Render(r1) == "5,7-9";
    RenderCons(t0, r1);
    assert IntToString(0) == "0" && IntToString(2) == "2";
  }

  lemma TwoPairs(nums: seq<int>)
    requires nums == [1, 2, 4, 5]
    ensures Render(AsWrittenTokens(nums)) == "1,2,4,5"
  {
    var ts := [Single(1), Single(2), Single(4), Single(5)];
    TwoPairsTokens(ts, nums);
    WrittenFrom(ts, nums);
    TwoPairsText(ts);
  }

  lemma TwoPairsTokens(ts: seq<Token>, nums: seq<int>)
    requires ts == [Single(1), Single(2), Single(4), Single(5)] && nums == [1, 2, 4, 5]
    ensures WellFormed(ts) && Flatten(ts) == nums
  {
    assert SeamAt(ts, 1) && SeamAt(ts, 2) && SeamAt(ts, 3);
    assert NoTripleAt(ts, 2) && NoTripleAt(ts, 3);
    assert ts == Singles(nums);
    FlattenSingles(nums);
  }

  lemma TwoPairsText(ts: seq<Token>)
    requires ts == [Single(1), Single(2), Single(4), Single(5)]
    ensures Render(ts) == "1,2,4,5"
  {
    var t0, t1, t2, t3 := Single(1), Single(2), Single(4), Single(5);
    var r3, r2, r1 := [t3], [t2, t3], [t1, t2, t3];
    assert r2 == [t2] + r3 && r1 == [t1] + r2 && ts == [t0] + r1;
    RenderCons(t3, []);
    assert [t3] + [] == r3;
    assert IntToString(5) == "5";
    assert Render(r3) == "5";
    RenderCons(t2, r3);
    assert IntToString(4) == "4";
    assert Render(r2) == "4,5";
    RenderCons(t1, r2);
    assert IntToString(2) == "2";
    assert Render(r1) == "2,4,5";
    RenderCons(t0, r1);
    assert IntToString(1) == "1";
  }

  /** `[1, 3]`: the source writes "1" where "1,3" is meant. */
  lemma LastValueDropped(nums: seq<int>)
    requires nums == [1, 3]
    ensures Render(AsWrittenTokens(nums)) == "1"
    ensures Render(Tokens(nums)) == "1,3"
  {
    var ts := [Single(1), Single(3)];
    OneThreeTokens(ts, nums);
    LoneLastFrom(ts, nums);
    OneThreeText(ts, ts[..1]);
  }

  /** Well-formed tokens that spell out a list ending with a lone value are
      the intended ones, and the source writes all of them but the last. */
  lemma LoneLastFrom(ts: seq<Token>, nums: seq<int>)
    requires WellFormed(ts) && Flatten(ts) == nums
    requires |nums| > 0 && IsBoundary(nums, |nums| - 1)
    ensures |ts| > 0 && Tokens(nums) == ts && AsWrittenTokens(nums) == ts[..|ts| - 1]
  {
    TokensUnique(ts, nums);
    AsWrittenLosesLast(nums);
    var a := AsWrittenTokens(nums);
    assert ts[..|ts| - 1] == a;
  }

  lemma OneThreeTokens(ts: seq<Token>, nums: seq<int>)
    requires ts == [Single(1), Single(3)] && nums == [1, 3]
    ensures WellFormed(ts) && Flatten(ts) == nums
    ensures |nums| > 0 && IsBoundary(nums, |nums| - 1)
  {
    assert SeamAt(ts, 1);
    assert ts == Singles(nums);
    FlattenSingles(nums);
  }

  lemma OneThreeText(ts: seq<Token>, a: seq<Token>)
    requires ts == [Single(1), Single(3)] && a == ts[..1]
    ensures Render(a) == "1" && Render(ts) == "1,3"
  {
    var t0, t1 := Single(1), Single(3);
    assert a == [t0] + [] && ts == [t0] + [t1] && [t1] == [t1] + [];
    RenderCons(t0, []);
    RenderCons(t1, []);
    assert IntToString(1) == "1" && IntToString(3) == "3";
    assert Render([t1]) == "3";
    RenderCons(t0, [t1]);
  }

  /** `[5]`: the source writes nothing where "5" is meant. */
  lemma SingleValueDropped(nums: seq<int>)
    requires nums == [5]
    ensures Render(AsWrittenTokens(nums)) == ""
    ensures Render(Tokens(nums)) == "5"
  {
    AsWrittenLosesLast(nums);
    assert AsWrittenTokens(nums) == [];
    assert Tokens(nums) == [Single(5)];
    assert TokenStrings([Single(5)]) == [IntToString(5)];
  }
}
