/** extractRanges: a list of integers written as comma-separated values and
    `first-last` ranges. The text is built from tokens; `Tokens` is the
    intended token list (every maximal run of three or more consecutive
    values becomes a range, shorter runs stay single values) and
    `AsWrittenTokens` is what the source's loop emits, which loses a final
    run of one value. */
module Ranges {
  import opened Options
  import opened StringUtils

  datatype Token = Single(value: int) | Span(lo: int, hi: int)

  /** The integers a token stands for. */
  function Values(t: Token): seq<int>
  {
    match t
    case Single(v) => [v]
    case Span(lo, hi) => seq(if lo <= hi then hi - lo + 1 else 0, k => lo + k)
  }

  function Flatten(ts: seq<Token>): seq<int>
  {
    if |ts| == 0 then [] else Flatten(ts[..|ts| - 1]) + Values(ts[|ts| - 1])
  }

  /** `${v}` or `${lo}-${hi}`. */
  function TokenString(t: Token): (r: string)
    ensures |r| >= 1 && ',' !in r
  {
    match t
    case Single(v) => IntToString(v)
    case Span(lo, hi) => IntToString(lo) + "-" + IntToString(hi)
  }

  function TokenStrings(ts: seq<Token>): (r: seq<string>)
    ensures |r| == |ts|
    ensures forall k :: 0 <= k < |ts| ==> r[k] == TokenString(ts[k])
  {
    seq(|ts|, k requires 0 <= k < |ts| => TokenString(ts[k]))
  }

  /** The tokens joined by commas. */
  function Render(ts: seq<Token>): string
  {
    Join(TokenStrings(ts), ',')
  }

  /** Each value of `nums[a..b]` is one more than the one before it: the
      value at `k` lies `k - a` above the first. */
  ghost predicate ConsecutiveRange(nums: seq<int>, a: nat, b: nat)
    requires a <= b <= |nums|
  {
    forall k :: a <= k < b ==> nums[k] == nums[a] + (k - a)
  }

  /** A run of consecutive values starts at `j`. */
  predicate IsBoundary(nums: seq<int>, j: nat)
    requires j < |nums|
  {
    j == 0 || nums[j - 1] + 1 != nums[j]
  }

  /** Where the maximal run of consecutive values that ends at `j` starts. */
  function RunStart(nums: seq<int>, j: nat): (st: nat)
    requires j < |nums|
    ensures st <= j && IsBoundary(nums, st) && ConsecutiveRange(nums, st, j + 1)
  {
    if IsBoundary(nums, j) then j else RunStart(nums, j - 1)
  }

  function Singles(run: seq<int>): (ts: seq<Token>)
    ensures |ts| == |run|
    ensures forall k :: 0 <= k < |run| ==> ts[k] == Single(run[k])
  {
    seq(|run|, k requires 0 <= k < |run| => Single(run[k]))
  }

  /** One run: a range from three values up, otherwise each value alone. */
  function RunTokens(run: seq<int>): seq<Token>
    requires |run| >= 1
  {
    if |run| >= 3 then [Span(run[0], run[|run| - 1])] else Singles(run)
  }

  /** The intended tokens: the runs from left to right, each written as
      `RunTokens` writes it. */
  function Tokens(nums: seq<int>): seq<Token>
    decreases |nums|
  {
    if |nums| == 0 then []
    else
      var st := RunStart(nums, |nums| - 1);
      Tokens(nums[..st]) + RunTokens(nums[st..])
  }

  /** What the source's loop emits: when the last value starts a run of its
      own, the loop stops before writing it. */
  function AsWrittenTokens(nums: seq<int>): seq<Token>
  {
    if |nums| == 0 then []
    else if IsBoundary(nums, |nums| - 1) then Tokens(nums[..|nums| - 1])
    else Tokens(nums)
  }

  /** The text the loop has built after writing `ts`: every token followed
      by a comma. */
  function Written(ts: seq<Token>): string
  {
    Terminated(TokenStrings(ts), ',')
  }

  // ---- Properties of the token lists ----

  lemma {:induction false} FlattenAppend(a: seq<Token>, b: seq<Token>)
    ensures Flatten(a + b) == Flatten(a) + Flatten(b)
    decreases |b|
  {
    if |b| == 0 {
      assert a + b == a;
    } else {
      var ab, init, last := a + b, b[..|b| - 1], b[|b| - 1];
      assert ab[..|ab| - 1] == a + init && ab[|ab| - 1] == last;
      FlattenAppend(a, init);
      FlattenSnoc(ab);
      FlattenSnoc(b);
      AppendAssoc(Flatten(a), Flatten(init), Values(last));
    }
  }

  lemma {:induction false} FlattenSingles(run: seq<int>)
    ensures Flatten(Singles(run)) == run
    decreases |run|
  {
    if |run| > 0 {
      var init := run[..|run| - 1];
      assert Singles(run)[..|run| - 1] == Singles(init);
      FlattenSingles(init);
      assert run == init + [run[|run| - 1]];
    }
  }

  /** A run written as `RunTokens` expands back to the run. */
  lemma FlattenRun(nums: seq<int>, a: nat, b: nat)
    requires a < b <= |nums| && ConsecutiveRange(nums, a, b)
    ensures Flatten(RunTokens(nums[a..b])) == nums[a..b]
  {
    var run := nums[a..b];
    if |run| >= 3 {
      var t := Span(run[0], run[|run| - 1]);
      forall k | 0 <= k < |run|
        ensures run[k] == run[0] + k
      {
        RunValue(nums, a, b, a + k);
      }
      assert [t][..0] == [];
      assert Values(t) == run;
    } else {
      FlattenSingles(run);
    }
  }

  lemma {:induction false} RunValue(nums: seq<int>, a: nat, b: nat, k: nat)
    requires a <= k < b <= |nums| && ConsecutiveRange(nums, a, b)
    ensures nums[k] == nums[a] + (k - a)
    decreases k
  {
    if k > a {
      RunValue(nums, a, b, k - 1);
    }
  }

  /** Expanding the intended tokens gives the list back. */
  lemma {:induction false} TokensFlatten(nums: seq<int>)
    ensures Flatten(Tokens(nums)) == nums
    decreases |nums|
  {
    if |nums| > 0 {
      var st := RunStart(nums, |nums| - 1);
      var init, run := nums[..st], nums[st..];
      assert init + run == nums;
      assert run == nums[st..|nums|];
      TokensUnfold(nums, st);
      TokensFlatten(init);
      FlattenAppend(Tokens(init), RunTokens(run));
      FlattenRun(nums, st, |nums|);
    }
  }

  // ---- The intended tokens are the only well-formed ones ----

  function First(t: Token): int
  {
    match t
    case Single(v) => v
    case Span(lo, _) => lo
  }

  function Last(t: Token): int
  {
    match t
    case Single(v) => v
    case Span(_, hi) => hi
  }

  /** Two neighbouring tokens continue one run. */
  predicate Joins(t: Token, u: Token)
  {
    Last(t) + 1 == First(u)
  }

  /** The format of the list: a range stands for more than two values, a
      range is never continued by its neighbours, and no three neighbouring
      tokens form one run; so every run of more than two values is one range
      and every shorter run is written value by value. */
  ghost predicate WellFormed(ts: seq<Token>)
  {
    SpansLong(ts) && SpansMaximal(ts) && NoLongSingles(ts)
  }

  ghost predicate SpansLong(ts: seq<Token>)
  {
    forall k :: 0 <= k < |ts| && ts[k].Span? ==> ts[k].lo + 2 <= ts[k].hi
  }

  ghost predicate SpansMaximal(ts: seq<Token>)
  {
    forall k :: 0 < k < |ts| ==> SeamAt(ts, k)
  }

  ghost predicate NoLongSingles(ts: seq<Token>)
  {
    forall k :: 1 < k < |ts| ==> NoTripleAt(ts, k)
  }

  /** Tokens `k - 1` and `k` join only when both are single values. */
  predicate SeamAt(ts: seq<Token>, k: nat)
    requires 0 < k < |ts|
  {
    Joins(ts[k - 1], ts[k]) ==> ts[k - 1].Single? && ts[k].Single?
  }

  /** Tokens `k - 2`, `k - 1` and `k` do not form one run. */
  predicate NoTripleAt(ts: seq<Token>, k: nat)
    requires 1 < k < |ts|
  {
    !(Joins(ts[k - 2], ts[k - 1]) && Joins(ts[k - 1], ts[k]))
  }

  /** The last value a list of tokens stands for is the last token's. */
  lemma FlattenLast(ts: seq<Token>)
    requires |ts| > 0
    requires ts[|ts| - 1].Span? ==> ts[|ts| - 1].lo <= ts[|ts| - 1].hi
    ensures |Flatten(ts)| > 0 && Flatten(ts)[|Flatten(ts)| - 1] == Last(ts[|ts| - 1])
  {
    var t := ts[|ts| - 1];
    assert Flatten(ts) == Flatten(ts[..|ts| - 1]) + Values(t);
    var vs := Values(t);
    assert |vs| > 0 && vs[|vs| - 1] == Last(t);
  }

  lemma WellFormedPrefix(ts: seq<Token>, m: nat)
    requires WellFormed(ts) && m <= |ts|
    ensures WellFormed(ts[..m])
  {
    var p := ts[..m];
    forall k | 0 < k < |p|
      ensures SeamAt(p, k)
    {
      assert p[k - 1] == ts[k - 1] && p[k] == ts[k];
      assert SeamAt(ts, k);
    }
    forall k | 1 < k < |p|
      ensures NoTripleAt(p, k)
    {
      assert p[k - 2] == ts[k - 2] && p[k - 1] == ts[k - 1] && p[k] == ts[k];
      assert NoTripleAt(ts, k);
    }
  }

  /** Two well-formed lists that do not join at the seam make a well-formed
      list. */
  lemma AppendWellFormed(a: seq<Token>, b: seq<Token>)
    requires WellFormed(a) && WellFormed(b)
    requires |a| > 0 && |b| > 0 ==> !Joins(a[|a| - 1], b[0])
    ensures WellFormed(a + b)
  {
    AppendSpansLong(a, b);
    AppendSpansMaximal(a, b);
    AppendNoLongSingles(a, b);
  }

  lemma AppendSpansLong(a: seq<Token>, b: seq<Token>)
    requires SpansLong(a) && SpansLong(b)
    ensures SpansLong(a + b)
  {
    var ab := a + b;
    forall k | 0 <= k < |ab| && ab[k].Span?
      ensures ab[k].lo + 2 <= ab[k].hi
    {
      if k >= |a| {
        assert ab[k] == b[k - |a|];
      }
    }
  }

  lemma AppendSpansMaximal(a: seq<Token>, b: seq<Token>)
    requires SpansMaximal(a) && SpansMaximal(b)
    requires |a| > 0 && |b| > 0 ==> !Joins(a[|a| - 1], b[0])
    ensures SpansMaximal(a + b)
  {
    var ab := a + b;
    forall k | 0 < k < |ab|
      ensures SeamAt(ab, k)
    {
      if k > |a| {
        assert ab[k - 1] == b[k - 1 - |a|] && ab[k] == b[k - |a|];
        assert SeamAt(b, k - |a|);
      } else if k < |a| {
        assert SeamAt(a, k);
      }
    }
  }

  lemma AppendNoLongSingles(a: seq<Token>, b: seq<Token>)
    requires NoLongSingles(a) && NoLongSingles(b)
    requires |a| > 0 && |b| > 0 ==> !Joins(a[|a| - 1], b[0])
    ensures NoLongSingles(a + b)
  {
    var ab := a + b;
    forall k | 1 < k < |ab|
      ensures NoTripleAt(ab, k)
    {
      if k > |a| + 1 {
        assert ab[k - 2] == b[k - 2 - |a|] && ab[k - 1] == b[k - 1 - |a|] && ab[k] == b[k - |a|];
        assert NoTripleAt(b, k - |a|);
      } else if k < |a| {
        assert NoTripleAt(a, k);
      }
    }
  }

  /** The tokens of one run are well formed, start with its first value and
      end with its last. */
  lemma RunTokensWellFormed(nums: seq<int>, a: nat, b: nat)
    requires a < b <= |nums| && ConsecutiveRange(nums, a, b)
    ensures var ts := RunTokens(nums[a..b]);
      && WellFormed(ts) && |ts| > 0
      && First(ts[0]) == nums[a] && Last(ts[|ts| - 1]) == nums[b - 1]
  {
    if b - a >= 3 {
      RunValue(nums, a, b, b - 1);
    }
  }

  /** The intended tokens end with the last value. */
  lemma TokensLast(nums: seq<int>)
    requires |nums| > 0
    ensures var ts := Tokens(nums); |ts| > 0 && Last(ts[|ts| - 1]) == nums[|nums| - 1]
  {
    var st := RunStart(nums, |nums| - 1);
    var run := nums[st..];
    TokensUnfold(nums, st);
    RunTokensLast(run);
    LastOfAppend(Tokens(nums[..st]), RunTokens(run));
    assert run[|run| - 1] == nums[|nums| - 1];
  }

  /** The tokens of a run end with its last value. */
  lemma RunTokensLast(run: seq<int>)
    requires |run| >= 1
    ensures var ts := RunTokens(run); |ts| > 0 && Last(ts[|ts| - 1]) == run[|run| - 1]
  {
  }

  lemma LastOfAppend(a: seq<Token>, b: seq<Token>)
    requires |b| > 0
    ensures |a + b| > 0 && (a + b)[|a + b| - 1] == b[|b| - 1]
  {
  }

  /** The tokens before a run do not join the run's tokens. */
  lemma SeamOpen(nums: seq<int>, st: nat)
    requires st < |nums| && IsBoundary(nums, st)
    requires ConsecutiveRange(nums, st, |nums|)
    ensures var a, b := Tokens(nums[..st]), RunTokens(nums[st..]);
      |a| > 0 && |b| > 0 ==> !Joins(a[|a| - 1], b[0])
  {
    var b := RunTokens(nums[st..]);
    assert nums[st..] == nums[st..|nums|];
    RunTokensWellFormed(nums, st, |nums|);
    if st > 0 {
      TokensLast(nums[..st]);
      assert nums[..st][st - 1] == nums[st - 1];
    }
  }

  /** The intended tokens are well formed. */
  lemma {:induction false} TokensWellFormed(nums: seq<int>)
    ensures WellFormed(Tokens(nums))
    decreases |nums|
  {
    if |nums| > 0 {
      var st := RunStart(nums, |nums| - 1);
      var init, run := nums[..st], nums[st..];
      assert run == nums[st..|nums|];
      var a, b := Tokens(init), RunTokens(run);
      assert Tokens(nums) == a + b;
      TokensWellFormed(init);
      RunTokensWellFormed(nums, st, |nums|);
      SeamOpen(nums, st);
      AppendWellFormed(a, b);
    }
  }

  /** When the input ends with a run starting at a boundary `a`, its tokens
      are those before `a` followed by the run's. */
  lemma TokensSplitAt(nums: seq<int>, a: nat)
    requires a < |nums| && IsBoundary(nums, a) && ConsecutiveRange(nums, a, |nums|)
    ensures Tokens(nums) == Tokens(nums[..a]) + RunTokens(nums[a..])
  {
    TokensPrefix(nums, a, |nums|);
    assert nums[..|nums|] == nums && nums[a..|nums|] == nums[a..];
  }

  /** A run starts where the tokens before it end, if the last of those
      does not join the value there. */
  lemma BoundaryAfter(init: seq<Token>, nums: seq<int>, a: nat)
    requires a < |nums| && Flatten(init) == nums[..a]
    requires |init| > 0 ==> SpansLong(init) && Last(init[|init| - 1]) + 1 != nums[a]
    ensures IsBoundary(nums, a)
  {
    if a > 0 {
      assert |init| > 0;
      var t := init[|init| - 1];
      assert t.Span? ==> t.lo + 2 <= t.hi;
      FlattenLast(init);
      assert nums[..a][a - 1] == nums[a - 1];
    }
  }

  /** The values of a long range form one run, written back as that range. */
  lemma SpanRun(t: Token)
    requires t.Span? && t.lo + 2 <= t.hi
    ensures |Values(t)| >= 3 && ConsecutiveRange(Values(t), 0, |Values(t)|)
    ensures RunTokens(Values(t)) == [t]
  {
  }

  /** A run at the end of a list, seen from the whole list. */
  lemma TailRun(p: seq<int>, vs: seq<int>)
    requires |vs| > 0 && ConsecutiveRange(vs, 0, |vs|)
    ensures ConsecutiveRange(p + vs, |p|, |p + vs|)
    ensures (p + vs)[..|p|] == p && (p + vs)[|p|..] == vs
  {
    var nums := p + vs;
    forall k | |p| <= k < |nums|
      ensures nums[k] == nums[|p|] + (k - |p|)
    {
      assert nums[k] == vs[k - |p|] && nums[|p|] == vs[0];
    }
  }

  lemma FlattenSnoc(ts: seq<Token>)
    requires |ts| > 0
    ensures Flatten(ts) == Flatten(ts[..|ts| - 1]) + Values(ts[|ts| - 1])
  {
  }

  /** Uniqueness when the list ends with a range. */
  lemma UniqueEndSpan(init: seq<Token>, t: Token, nums: seq<int>)
    requires t.Span? && t.lo + 2 <= t.hi
    requires nums == Flatten(init) + Values(t) && Tokens(Flatten(init)) == init
    requires |init| > 0 ==> SpansLong(init) && !Joins(init[|init| - 1], t)
    ensures Tokens(nums) == init + [t]
  {
    var p := Flatten(init);
    SpanRun(t);
    TailRun(p, Values(t));
    BoundaryAfter(init, nums, |p|);
    TokensSplitAt(nums, |p|);
  }

  /** Uniqueness when the list ends with a value that does not continue its
      neighbour. */
  lemma UniqueEndLone(init: seq<Token>, v: int, nums: seq<int>)
    requires nums == Flatten(init) + [v] && Tokens(Flatten(init)) == init
    requires |init| > 0 ==> SpansLong(init) && !Joins(init[|init| - 1], Single(v))
    ensures Tokens(nums) == init + [Single(v)]
  {
    var p := Flatten(init);
    SingleRun(v);
    TailRun(p, [v]);
    assert nums[|p|] == v;
    BoundaryAfter(init, nums, |p|);
    TokensSplitAt(nums, |p|);
  }

  /** A run of one value is written as that value. */
  lemma SingleRun(v: int)
    ensures ConsecutiveRange([v], 0, 1) && RunTokens([v]) == [Single(v)]
  {
    assert Singles([v])[0] == Single(v);
  }

  /** Uniqueness when the list ends with two values of one run. */
  lemma UniqueEndPair(init: seq<Token>, vs: seq<int>, nums: seq<int>)
    requires |vs| == 2 && vs[1] == vs[0] + 1
    requires nums == Flatten(init) + vs && Tokens(Flatten(init)) == init
    requires |init| > 0 ==> SpansLong(init) && !Joins(init[|init| - 1], Single(vs[0]))
    ensures Tokens(nums) == init + RunTokens(vs)
  {
    var p := Flatten(init);
    TailRun(p, vs);
    BoundaryAfter(init, nums, |p|);
    TokensSplitAt(nums, |p|);
  }

  /** A run of two values is written value by value. */
  lemma PairTokens(run: seq<int>)
    requires |run| == 2
    ensures RunTokens(run) == [Single(run[0]), Single(run[1])]
  {
  }

  /** The intended tokens are the only well-formed tokens for the list: the
      format determines how a list is written. */
  lemma {:induction false} TokensUnique(ts: seq<Token>, nums: seq<int>)
    requires WellFormed(ts) && Flatten(ts) == nums
    ensures ts == Tokens(nums)
    decreases |ts|, 1
  {
    var m := |ts|;
    if m > 0 {
      var t, init := ts[m - 1], ts[..m - 1];
      FlattenSnoc(ts);
      WellFormedPrefix(ts, m - 1);
      TokensUnique(init, Flatten(init));
      LastOne(ts);
      if m >= 2 {
        assert init[m - 2] == ts[m - 2];
        assert SeamAt(ts, m - 1);
      }
      if t.Span? {
        UniqueEndSpan(init, t, nums);
      } else if m >= 2 && Joins(ts[m - 2], t) {
        UniquePair(ts, nums);
      } else {
        UniqueEndLone(init, t.value, nums);
      }
    }
  }

  /** The pair case of `TokensUnique`: the two last tokens are values of one
      run, so the list before them is handled by induction. */
  lemma {:induction false} UniquePair(ts: seq<Token>, nums: seq<int>)
    requires WellFormed(ts) && Flatten(ts) == nums && |ts| >= 2
    requires ts[|ts| - 1].Single? && Joins(ts[|ts| - 2], ts[|ts| - 1])
    ensures ts == Tokens(nums)
    decreases |ts|, 0
  {
    var m := |ts|;
    var init := ts[..m - 2];
    assert SeamAt(ts, m - 1);
    var vs := [ts[m - 2].value, ts[m - 1].value];
    FlattenPair(ts);
    WellFormedPrefix(ts, m - 2);
    TokensUnique(init, Flatten(init));
    if m >= 3 {
      assert NoTripleAt(ts, m - 1);
      assert init[m - 3] == ts[m - 3];
    }
    UniqueEndPair(init, vs, nums);
  }

  /** A list ending with two single values is the list before them followed
      by the tokens of those two values. */
  lemma FlattenPair(ts: seq<Token>)
    requires |ts| >= 2 && ts[|ts| - 2].Single? && ts[|ts| - 1].Single?
    ensures var m, vs := |ts|, [ts[|ts| - 2].value, ts[|ts| - 1].value];
      Flatten(ts) == Flatten(ts[..m - 2]) + vs && ts == ts[..m - 2] + RunTokens(vs)
  {
    FlattenLastTwo(ts);
    PairTokens([ts[|ts| - 2].value, ts[|ts| - 1].value]);
    LastTwo(ts);
  }

  lemma FlattenLastTwo(ts: seq<Token>)
    requires |ts| >= 2 && ts[|ts| - 2].Single? && ts[|ts| - 1].Single?
    ensures Flatten(ts) == Flatten(ts[..|ts| - 2]) + [ts[|ts| - 2].value, ts[|ts| - 1].value]
  {
    var m := |ts|;
    var init, init1 := ts[..m - 2], ts[..m - 1];
    var u, v := ts[m - 2].value, ts[m - 1].value;
    FlattenSnoc(ts);
    assert init1[..m - 2] == init && init1[m - 2] == ts[m - 2];
    FlattenSnoc(init1);
    AppendAssoc(Flatten(init), [u], [v]);
  }

  /** A run that starts at a boundary and continues up to `j` is the run
      `RunStart` finds for `j`. */
  lemma {:induction false} RunStartIs(nums: seq<int>, a: nat, j: nat)
    requires a <= j < |nums| && IsBoundary(nums, a) && ConsecutiveRange(nums, a, j + 1)
    ensures RunStart(nums, j) == a
    decreases j
  {
    if j > a {
      assert nums[j] == nums[j - 1] + 1;
      RunStartIs(nums, a, j - 1);
    }
  }

  /** The tokens of a prefix that ends with a run are those of the part
      before the run followed by the run's own. */
  lemma TokensPrefix(nums: seq<int>, l: nat, i: nat)
    requires l < i <= |nums| && IsBoundary(nums, l) && ConsecutiveRange(nums, l, i)
    ensures Tokens(nums[..i]) == Tokens(nums[..l]) + RunTokens(nums[l..i])
  {
    var pre := nums[..i];
    PrefixRun(nums, l, i);
    RunStartIs(pre, l, i - 1);
    TokensUnfold(pre, l);
    assert pre[..l] == nums[..l];
    assert pre[l..] == nums[l..i];
  }

  /** One step of `Tokens`: the last run, once its start is known. */
  lemma TokensUnfold(nums: seq<int>, st: nat)
    requires st < |nums| && RunStart(nums, |nums| - 1) == st
    ensures Tokens(nums) == Tokens(nums[..st]) + RunTokens(nums[st..])
  {
  }

  lemma PrefixRun(nums: seq<int>, l: nat, i: nat)
    requires l < i <= |nums| && IsBoundary(nums, l) && ConsecutiveRange(nums, l, i)
    ensures IsBoundary(nums[..i], l) && ConsecutiveRange(nums[..i], l, i)
  {
  }

  /** The text of a list is its first token's, then a comma and the rest's. */
  lemma RenderCons(t: Token, ts: seq<Token>)
    ensures Render([t] + ts) == if |ts| == 0 then TokenString(t) else TokenString(t) + [','] + Render(ts)
  {
    TokenStringsAppend([t], ts);
    assert TokenStrings([t]) == [TokenString(t)];
    JoinFront(TokenString(t), TokenStrings(ts), ',');
  }

  /** The text is empty only for no tokens, and it never starts or ends with
      a comma. */
  lemma RenderNoStrayComma(ts: seq<Token>)
    ensures |Render(ts)| == 0 <==> |ts| == 0
    ensures |ts| > 0 ==> Render(ts)[0] != ',' && Render(ts)[|Render(ts)| - 1] != ','
  {
    if |ts| > 0 {
      var strs := TokenStrings(ts);
      var first, last := strs[0], strs[|strs| - 1];
      JoinEnds(strs, ',');
      assert first[0] in first;
      assert last[|last| - 1] in last;
    }
  }

  lemma TokenStringsAppend(a: seq<Token>, b: seq<Token>)
    ensures TokenStrings(a + b) == TokenStrings(a) + TokenStrings(b)
  {
  }

  lemma WrittenAppend(a: seq<Token>, b: seq<Token>)
    ensures Written(a + b) == Written(a) + Written(b)
  {
    TokenStringsAppend(a, b);
    TerminatedAppend(TokenStrings(a), TokenStrings(b), ',');
  }

  /** One token written on its own. */
  lemma WrittenOne(t: Token)
    ensures Written([t]) == TokenString(t) + ","
  {
    var strs := TokenStrings([t]);
    assert strs == [TokenString(t)];
    assert strs[..0] == [];
    assert Terminated(strs, ',') == Terminated([], ',') + (TokenString(t) + [',']);
  }

  /** Dropping the comma after the last token leaves the tokens joined by
      commas. */
  lemma WrittenRender(ts: seq<Token>)
    ensures DropLast(Written(ts)) == Render(ts)
  {
    TerminatedJoin(TokenStrings(ts), ',');
  }

  /** Writing one more single value of a short run. */
  lemma WriteSingle(nums: seq<int>, l0: nat, l: nat)
    requires l0 <= l < |nums|
    ensures Written(Singles(nums[l0..l + 1])) == Written(Singles(nums[l0..l])) + (IntToString(nums[l]) + ",")
  {
    assert Singles(nums[l0..l + 1]) == Singles(nums[l0..l]) + [Single(nums[l])];
    WrittenAppend(Singles(nums[l0..l]), [Single(nums[l])]);
    WrittenOne(Single(nums[l]));
  }

  /** Writes the values `nums[l..i]` one by one, as the `for (l; l < i; l++)`
      loops of the source do. */
  method EmitValues(nums: seq<int>, s: string, l: nat, i: nat) returns (s': string)
    requires l <= i <= |nums|
    ensures s' == s + Written(Singles(nums[l..i]))
  {
    s' := s;
    var m := l;
    assert nums[l..l] == [];
    while m < i
      invariant l <= m <= i
      invariant s' == s + Written(Singles(nums[l..m]))
    {
      var piece := IntToString(nums[m]) + ",";
      WriteSingle(nums, l, m);
      AppendAssoc(s, Written(Singles(nums[l..m])), piece);
      s' := s' + piece;
      m := m + 1;
    }
  }

  /** A maximal run closes: the tokens of the prefix up to its end are those
      before it and the run's own. */
  lemma RunClosed(nums: seq<int>, l: nat, i: nat)
    requires l < i <= |nums| && IsBoundary(nums, l) && ConsecutiveRange(nums, l, i)
    ensures Written(Tokens(nums[..i])) == Written(Tokens(nums[..l])) + Written(RunTokens(nums[l..i]))
  {
    TokensPrefix(nums, l, i);
    WrittenAppend(Tokens(nums[..l]), RunTokens(nums[l..i]));
  }

  lemma RunGoesOn(nums: seq<int>, l: nat, i: nat)
    requires l < i < |nums| && ConsecutiveRange(nums, l, i) && nums[i] == nums[i - 1] + 1
    ensures ConsecutiveRange(nums, l, i + 1)
  {
  }

  /** The input ends inside a run that started before its last value: every
      token is written. */
  lemma FinalRun(nums: seq<int>, l: nat)
    requires l < |nums| - 1 && ConsecutiveRange(nums, l, |nums|)
    ensures DropLast(Written(Tokens(nums[..|nums|]))) == Render(AsWrittenTokens(nums))
  {
    assert nums[..|nums|] == nums;
    assert !IsBoundary(nums, |nums| - 1);
    WrittenRender(Tokens(nums));
  }

  /** The input ends with a value that starts a run of its own: the loop
      stops before writing it. */
  lemma LastAlone(nums: seq<int>, l: nat)
    requires l == |nums| - 1 && IsBoundary(nums, l)
    ensures DropLast(Written(Tokens(nums[..l]))) == Render(AsWrittenTokens(nums))
  {
    WrittenRender(Tokens(nums[..l]));
  }

  /** Writes the run `nums[l..i]`, which went on for `ctrl` steps past its
      first value: as `first-last` after two steps or more, otherwise value by
      value. */
  method WriteRun(nums: seq<int>, s: string, l: nat, i: nat, ctrl: nat) returns (s': string)
    requires l < i <= |nums| && ctrl == i - 1 - l
    ensures s' == s + Written(RunTokens(nums[l..i]))
  {
    if ctrl >= 2 {
      var piece := IntToString(nums[l]) + "-" + IntToString(nums[i - 1]) + ",";
      WrittenSpan(nums, l, i);
      s' := s + piece;
    } else {
      ShortRun(nums, l, i);
      s' := EmitValues(nums, s, l, i);
    }
  }

  /** A run of three values or more is written as `first-last,`. */
  lemma WrittenSpan(nums: seq<int>, l: nat, i: nat)
    requires l + 3 <= i <= |nums|
    ensures Written(RunTokens(nums[l..i])) == IntToString(nums[l]) + "-" + IntToString(nums[i - 1]) + ","
  {
    var run, t := nums[l..i], Span(nums[l], nums[i - 1]);
    assert run[0] == nums[l] && run[|run| - 1] == nums[i - 1];
    assert RunTokens(run) == [t];
    WrittenOne(t);
  }

  /** A run of one or two values is written value by value. */
  lemma ShortRun(nums: seq<int>, l: nat, i: nat)
    requires l < i <= l + 2 && i <= |nums|
    ensures RunTokens(nums[l..i]) == Singles(nums[l..i])
  {
  }

  /** The input ends inside a run: it is written, and the comma after it is
      dropped. When `s` holds the tokens before the run, the result is the
      whole text the source returns. */
  method WriteLastRun(nums: seq<int>, s: string, l: nat, ctrl: nat) returns (r: string)
    requires l < |nums| - 1 && ctrl == |nums| - 1 - l
    ensures r == DropLast(s + Written(RunTokens(nums[l..])))
    ensures IsBoundary(nums, l) && ConsecutiveRange(nums, l, |nums|) && s == Written(Tokens(nums[..l]))
      ==> r == Render(AsWrittenTokens(nums))
  {
    var s' := WriteRun(nums, s, l, |nums|, ctrl);
    assert nums[l..|nums|] == nums[l..];
    r := DropLast(s');
    if IsBoundary(nums, l) && ConsecutiveRange(nums, l, |nums|) && s == Written(Tokens(nums[..l])) {
      RunClosed(nums, l, |nums|);
      FinalRun(nums, l);
    }
  }

  /** The inner `while (p + 1 === nums[i])` loop of the source, from the run
      start `l`: it follows the run while each value is one more than the
      last, counting the steps in `ctrl`. It reports `ended` where the source
      returns from inside the loop, on reaching the end of the input. */
  method FollowRun(nums: seq<int>, l: nat) returns (i: nat, ctrl: nat, p: int, ended: bool)
    requires l < |nums| - 1
    ensures l < i <= |nums| && ctrl == i - 1 - l && p == nums[i - 1]
    ensures ConsecutiveRange(nums, l, i)
    ensures ended <==> i == |nums|
    ensures !ended ==> IsBoundary(nums, i)
  {
    i, ctrl, p, ended := l + 1, 0, nums[l], false;
    while p + 1 == nums[i]
      invariant l < i < |nums| && p == nums[i - 1] && ctrl == i - 1 - l
      invariant ConsecutiveRange(nums, l, i)
      decreases |nums| - i
    {
      RunGoesOn(nums, l, i);
      ctrl := ctrl + 1;
      p := p + 1;
      i := i + 1;
      if i == |nums| {
        ended := true;
        return;
      }
    }
  }

  /** The outer `for` loop of the source on a non-empty input. It either
      returns from inside the loop (`ended`, with the text `r`) or runs out
      with `l` at the last value, which starts a run of its own and is not
      yet written; `s` then holds every token before it. */
  method ScanRuns(nums: seq<int>) returns (s: string, l: nat, ended: bool, r: string)
    requires |nums| > 0
    ensures ended ==> !IsBoundary(nums, |nums| - 1) && r == Render(AsWrittenTokens(nums))
    ensures !ended ==> l == |nums| - 1 && IsBoundary(nums, l) && s == Written(Tokens(nums[..l]))
  {
    s, ended, r := "", false, "";
    var p, i := nums[0], 1;
    l := 0;
    assert nums[..0] == [];
    while i < |nums|
      invariant 0 <= l < |nums| && i == l + 1 && p == nums[l]
      invariant IsBoundary(nums, l)
      invariant s == Written(Tokens(nums[..l]))
      decreases |nums| - i
    {
      var ctrl;
      i, ctrl, p, ended := FollowRun(nums, l);
      if ended {
        r := WriteLastRun(nums, s, l, ctrl);
        return;
      }
      RunClosed(nums, l, i);
      if ctrl < 2 {
        s := WriteRun(nums, s, l, i, ctrl);
        l := i;
        i := i + 1;
        p := nums[i - 1];
      } else {
        s := WriteRun(nums, s, l, i, ctrl);
        l := i;
        p := nums[i];
        i := i + 1;
      }
    }
  }

  /** extractRanges as the source writes it: the outer loop starts a run at
      `l`, `FollowRun` follows it, and the run is written as a range when it
      went on for two steps or more. The empty input gives the empty text. */
  method ExtractRanges(nums: seq<int>) returns (r: string)
    ensures r == Render(AsWrittenTokens(nums))
  {
    if |nums| == 0 {
      assert AsWrittenTokens(nums) == [];
      return "";
    }
    var s, l, ended;
    s, l, ended, r := ScanRuns(nums);
    if !ended {
      LastAlone(nums, l);
      r := DropLast(s);
    }
  }

  /** extractRanges with the value the loop leaves behind written after it:
      every value of the input appears in the text. */
  method ExtractRangesFixed(nums: seq<int>) returns (r: string)
    ensures r == Render(Tokens(nums))
  {
    if |nums| == 0 {
      assert Tokens(nums) == [];
      return "";
    }
    var s, l, ended;
    s, l, ended, r := ScanRuns(nums);
    AsWrittenLosesLast(nums);
    if !ended {
      RunClosed(nums, l, |nums|);
      s := EmitValues(nums, s, l, |nums|);
      LastWritten(nums, l);
      r := DropLast(s);
    }
  }

  /** After the last lone value is written, the text holds every token. */
  lemma LastWritten(nums: seq<int>, l: nat)
    requires l == |nums| - 1
    ensures Written(RunTokens(nums[l..|nums|])) == Written(Singles(nums[l..|nums|]))
    ensures DropLast(Written(Tokens(nums[..|nums|]))) == Render(Tokens(nums))
  {
    assert nums[..|nums|] == nums;
    WrittenRender(Tokens(nums));
  }

  /** The source's tokens are the intended ones, except that a last value
      starting a run of its own is missing. */
  lemma AsWrittenLosesLast(nums: seq<int>)
    ensures |nums| > 0 && IsBoundary(nums, |nums| - 1)
      ==> Tokens(nums) == AsWrittenTokens(nums) + [Single(nums[|nums| - 1])]
    ensures !(|nums| > 0 && IsBoundary(nums, |nums| - 1)) ==> Tokens(nums) == AsWrittenTokens(nums)
  {
    if |nums| > 0 && IsBoundary(nums, |nums| - 1) {
      var l := |nums| - 1;
      TokensUnfold(nums, l);
      assert nums[l..] == [nums[l]];
      SingleRun(nums[l]);
    }
  }

  /** Leaving out the last value changes the text: a lone last value never
      appears in what the source returns. */
  lemma LoneLastLost(nums: seq<int>)
    requires |nums| > 0 && IsBoundary(nums, |nums| - 1)
    ensures |Render(AsWrittenTokens(nums))| < |Render(Tokens(nums))|
  {
    var a := AsWrittenTokens(nums);
    var t := Single(nums[|nums| - 1]);
    AsWrittenLosesLast(nums);
    TokenStringsAppend(a, [t]);
    assert TokenStrings([t]) == [TokenString(t)];
    JoinSnoc(TokenStrings(a), TokenString(t), ',');
  }

  // ---- Reading the text back ----

  /** Reads one token: a dash after the first character separates a range's
      ends, a leading dash is a sign. */
  function ParseToken(s: string): Option<Token>
  {
    if |s| == 0 then None
    else
      var k := IndexFrom(s, '-', 1);
      if k == |s| then
        match ParseInt(s)
        case Some(v) => Some(Single(v))
        case None => None
      else
        match (ParseInt(s[..k]), ParseInt(s[k + 1..]))
        case (Some(lo), Some(hi)) => Some(Span(lo, hi))
        case _ => None
  }

  function ParseTokens(parts: seq<string>): Option<seq<Token>>
  {
    if |parts| == 0 then Some([])
    else
      match (ParseToken(parts[0]), ParseTokens(parts[1..]))
      case (Some(t), Some(ts)) => Some([t] + ts)
      case _ => None
  }

  /** Reads the comma-separated text back into tokens. */
  function ParseRanges(s: string): Option<seq<Token>>
  {
    if |s| == 0 then Some([]) else ParseTokens(Split(s, ','))
  }

  lemma TokenStringParses(t: Token)
    ensures ParseToken(TokenString(t)) == Some(t)
  {
    match t
    case Single(v) =>
      SingleParses(v);
    case Span(lo, hi) =>
      SpanParses(lo, hi);
  }

  lemma SingleParses(v: int)
    ensures ParseToken(IntToString(v)) == Some(Single(v))
  {
    var s := IntToString(v);
    assert IndexFrom(s, '-', 1) == |s|;
    ParseIntOfIntToString(v);
  }

  lemma SpanParses(lo: int, hi: int)
    ensures ParseToken(IntToString(lo) + "-" + IntToString(hi)) == Some(Span(lo, hi))
  {
    var a, b := IntToString(lo), IntToString(hi);
    var s := a + "-" + b;
    SpanDash(a, b);
    ParseIntOfIntToString(lo);
    ParseIntOfIntToString(hi);
    assert ParseInt(s[..|a|]) == Some(lo) && ParseInt(s[|a| + 1..]) == Some(hi);
  }

  /** In `a-b` with no dash in `a` after its sign, the first dash after the
      first character is the separator. */
  lemma SpanDash(a: string, b: string)
    requires |a| >= 1 && forall j :: 1 <= j < |a| ==> a[j] != '-'
    ensures var s := a + "-" + b;
      IndexFrom(s, '-', 1) == |a| && s[..|a|] == a && s[|a| + 1..] == b
  {
    var s := a + "-" + b;
    assert s[|a|] == '-';
    assert forall j :: 1 <= j < |a| ==> s[j] == a[j];
  }

  lemma {:induction false} TokenStringsParse(ts: seq<Token>)
    ensures ParseTokens(TokenStrings(ts)) == Some(ts)
    decreases |ts|
  {
    if |ts| > 0 {
      var strs := TokenStrings(ts);
      assert strs[1..] == TokenStrings(ts[1..]);
      TokenStringParses(ts[0]);
      TokenStringsParse(ts[1..]);
      assert ts == [ts[0]] + ts[1..];
    }
  }

  /** Reading the text back gives the tokens it was written from. */
  lemma RenderParses(ts: seq<Token>)
    ensures ParseRanges(Render(ts)) == Some(ts)
  {
    var strs := TokenStrings(ts);
    if |ts| > 0 {
      assert |Render(ts)| >= |strs[0]| > 0;
      SplitJoin(strs, ',');
    }
    TokenStringsParse(ts);
  }

  /** The corrected text determines the input: reading it back and expanding
      the ranges gives the list again. */
  lemma FixedRoundTrip(nums: seq<int>)
    ensures ParseRanges(Render(Tokens(nums))) == Some(Tokens(nums))
    ensures Flatten(Tokens(nums)) == nums
  {
    RenderParses(Tokens(nums));
    TokensFlatten(nums);
  }
}
