/** Brace expansion (expandBraces), in the style of section 3.5.1 of the GNU
    Bash Reference Manual. A work stack starts with the input. Each popped
    string is searched for the leftmost group `{...}` whose body is non-empty
    and holds no brace (the regular expression `\{([^{}]+)\}`). If there is
    one, the string is pushed back once per comma-separated alternative of the
    body, with the group replaced by that alternative. Otherwise the string is
    finished and is yielded unless it was yielded before.

    `Expand` is the recursive reading of that loop: the finished strings, in
    the order the stack produces them, duplicates included. `ExpandBraces`
    keeps the first occurrence of each, and the method `ExpandBracesLoop`
    runs the stack loop itself and is proved to agree with it. */
module Braces {
  import opened Options
  import opened StringUtils

  predicate IsBrace(c: char)
  {
    c == '{' || c == '}'
  }

  /** `s[i..j+1]` is a match of `\{([^{}]+)\}`: an opening brace at `i`, a
      closing brace at `j`, and a non-empty, brace-free body between them. */
  ghost predicate IsGroup(s: string, i: int, j: int)
  {
    && 0 <= i && i + 1 < j < |s|
    && s[i] == '{' && s[j] == '}'
    && forall k :: i < k < j ==> !IsBrace(s[k])
  }

  ghost predicate HasGroup(s: string)
  {
    exists i, j :: IsGroup(s, i, j)
  }

  /** The position of the first brace at or after `from`, or `|s|`. */
  function NextBrace(s: string, from: nat): (k: nat)
    requires from <= |s|
    ensures from <= k <= |s|
    ensures k < |s| ==> IsBrace(s[k])
    ensures forall m :: from <= m < k ==> !IsBrace(s[m])
    decreases |s| - from
  {
    if from == |s| || IsBrace(s[from]) then from else NextBrace(s, from + 1)
  }

  /** The leftmost match of the group pattern starting at or after `from`, as
      the positions of its two braces. */
  function FindGroup(s: string, from: nat): (r: Option<(nat, nat)>)
    requires from <= |s|
    ensures r.Some? ==> from <= r.value.0 && IsGroup(s, r.value.0, r.value.1)
    ensures r.Some? ==> forall i, j :: from <= i < r.value.0 ==> !IsGroup(s, i, j)
    ensures r.None? ==> forall i, j :: from <= i ==> !IsGroup(s, i, j)
    decreases |s| - from
  {
    if from == |s| then None
    else if s[from] != '{' then FindGroup(s, from + 1)
    else
      var close := NextBrace(s, from + 1);
      if close < |s| && s[close] == '}' && close > from + 1 then Some((from, close))
      else FindGroup(s, from + 1)
  }

  /** A string has a group exactly when the search finds one. */
  lemma FindGroupNone(s: string)
    ensures FindGroup(s, 0).None? <==> !HasGroup(s)
  {
    if FindGroup(s, 0).Some? {
      var g := FindGroup(s, 0).value;
      assert IsGroup(s, g.0, g.1);
    }
  }

  predicate OccursAt(s: string, pat: string, k: int)
  {
    0 <= k && k + |pat| <= |s| && s[k..k + |pat|] == pat
  }

  /** The first position at or after `from` where `pat` occurs in `s`
      (`String.prototype.indexOf`). */
  function IndexOf(s: string, pat: string, from: nat): (r: Option<nat>)
    ensures r.Some? ==> from <= r.value && OccursAt(s, pat, r.value)
    ensures r.Some? ==> forall k :: from <= k < r.value ==> !OccursAt(s, pat, k)
    ensures r.None? ==> forall k :: from <= k ==> !OccursAt(s, pat, k)
    decreases |s| - from
  {
    if from + |pat| > |s| then None
    else if s[from..from + |pat|] == pat then Some(from)
    else IndexOf(s, pat, from + 1)
  }

  /** `s.replace(pat, rep)` with a string pattern: only the first occurrence is
      replaced, and a string without one is returned unchanged. */
  function ReplaceFirst(s: string, pat: string, rep: string): string
  {
    match IndexOf(s, pat, 0)
    case None => s
    case Some(k) => s[..k] + rep + s[k + |pat|..]
  }

  /** The text of the leftmost group first occurs where the group was
      matched: an earlier occurrence would itself be an earlier match. */
  lemma {:induction false} MatchIsFirstOccurrence(s: string, i: nat, j: nat)
    requires IsGroup(s, i, j)
    requires forall i', j' :: 0 <= i' < i ==> !IsGroup(s, i', j')
    ensures IndexOf(s, s[i..j + 1], 0) == Some(i)
  {
    var pat := s[i..j + 1];
    var r := IndexOf(s, pat, 0);
    assert OccursAt(s, pat, i);
    assert r.Some? && r.value <= i;
    var k := r.value;
    if k < i {
      var j' := k + (j - i);
      assert OccursAt(s, pat, k);
      assert s[k..k + |pat|] == pat;
      forall m | k < m < j'
        ensures !IsBrace(s[m])
      {
        assert s[m] == pat[m - k] == s[i + (m - k)];
      }
      assert s[k] == pat[0] && s[j'] == pat[j - i];
      assert IsGroup(s, k, j');
      assert false;
    }
  }

  /** The body split at commas: the alternatives of the group. */
  function Alternatives(s: string, i: nat, j: nat): seq<string>
    requires i < j <= |s|
  {
    Split(s[i + 1..j], ',')
  }

  /** The strings pushed for the group `s[i..j+1]`, in push order: one per
      alternative, with the group replaced by it (`ReplaceFirst` performs the
      same replacement, see `MatchIsFirstOccurrence`). Each holds one `{`
      fewer than `s`. */
  function Children(s: string, i: nat, j: nat): (cs: seq<string>)
    requires IsGroup(s, i, j)
    ensures |cs| == |Alternatives(s, i, j)|
    ensures forall k :: 0 <= k < |cs| ==> cs[k] == s[..i] + Alternatives(s, i, j)[k] + s[j + 1..]
    ensures forall k :: 0 <= k < |cs| ==> Count(cs[k], '{') == Count(s, '{') - 1
  {
    var alts := Alternatives(s, i, j);
    forall k | 0 <= k < |alts|
      ensures Count(s[..i] + alts[k] + s[j + 1..], '{') == Count(s, '{') - 1
    {
      RewriteCount(s, i, j, alts[k], k);
    }
    seq(|alts|, k requires 0 <= k < |alts| => s[..i] + alts[k] + s[j + 1..])
  }

  /** Replacing a group by one of its alternatives removes exactly one `{`. */
  lemma RewriteCount(s: string, i: nat, j: nat, alt: string, k: nat)
    requires IsGroup(s, i, j)
    requires k < |Alternatives(s, i, j)| && alt == Alternatives(s, i, j)[k]
    ensures Count(s[..i] + alt + s[j + 1..], '{') == Count(s, '{') - 1
  {
    var body := s[i + 1..j];
    if '{' in alt {
      SplitChars(body, ',', k, '{');
      assert false;
    }
    CountZero(alt, '{');
    CountZero(body, '{');
    assert s == s[..i] + ([s[i]] + body + [s[j]]) + s[j + 1..];
    CountAppend(s[..i], [s[i]] + body + [s[j]], '{');
    CountAppend(s[..i] + ([s[i]] + body + [s[j]]), s[j + 1..], '{');
    CountAppend([s[i]] + body, [s[j]], '{');
    CountAppend([s[i]], body, '{');
    CountAppend(s[..i], alt, '{');
    CountAppend(s[..i] + alt, s[j + 1..], '{');
  }

  /** The concatenation of `xss` from the last element to the first: the
      order in which a stack releases what was pushed onto it. */
  function ConcatRev(xss: seq<seq<string>>): seq<string>
  {
    if |xss| == 0 then [] else xss[|xss| - 1] + ConcatRev(xss[..|xss| - 1])
  }

  /** The finished strings reached from `s`, in the order the stack loop pops
      them, duplicates included. */
  function Expand(s: string): seq<string>
    decreases Count(s, '{')
  {
    match FindGroup(s, 0)
    case None => [s]
    case Some(g) =>
      var cs := Children(s, g.0, g.1);
      ConcatRev(seq(|cs|, k requires 0 <= k < |cs| => Expand(cs[k])))
  }

  /** The finished strings a stack holding `stack` (top last) produces. */
  function ExpandStack(stack: seq<string>): seq<string>
  {
    if |stack| == 0 then [] else Expand(stack[|stack| - 1]) + ExpandStack(stack[..|stack| - 1])
  }

  /** The number of iterations the loop spends on `s` and everything pushed
      on its behalf. */
  function Size(s: string): nat
    decreases Count(s, '{')
  {
    match FindGroup(s, 0)
    case None => 1
    case Some(g) =>
      var cs := Children(s, g.0, g.1);
      1 + SumRev(seq(|cs|, k requires 0 <= k < |cs| => Size(cs[k])))
  }

  function SumRev(xs: seq<nat>): nat
  {
    if |xs| == 0 then 0 else xs[|xs| - 1] + SumRev(xs[..|xs| - 1])
  }

  function SizeStack(stack: seq<string>): nat
  {
    if |stack| == 0 then 0 else Size(stack[|stack| - 1]) + SizeStack(stack[..|stack| - 1])
  }

  lemma {:induction false} ExpandStackIsConcatRev(cs: seq<string>)
    ensures ConcatRev(seq(|cs|, k requires 0 <= k < |cs| => Expand(cs[k]))) == ExpandStack(cs)
  {
    if |cs| > 0 {
      var init := cs[..|cs| - 1];
      ExpandStackIsConcatRev(init);
      var xss := seq(|cs|, k requires 0 <= k < |cs| => Expand(cs[k]));
      assert xss[..|cs| - 1] == seq(|init|, k requires 0 <= k < |init| => Expand(init[k]));
    }
  }

  lemma {:induction false} SizeStackIsSumRev(cs: seq<string>)
    ensures SumRev(seq(|cs|, k requires 0 <= k < |cs| => Size(cs[k]))) == SizeStack(cs)
  {
    if |cs| > 0 {
      var init := cs[..|cs| - 1];
      SizeStackIsSumRev(init);
      var xs := seq(|cs|, k requires 0 <= k < |cs| => Size(cs[k]));
      assert xs[..|cs| - 1] == seq(|init|, k requires 0 <= k < |init| => Size(init[k]));
    }
  }

  /** Pushing `b` on top of `a`: everything reached from `b` comes first. */
  lemma {:induction false} ExpandStackAppend(a: seq<string>, b: seq<string>)
    ensures ExpandStack(a + b) == ExpandStack(b) + ExpandStack(a)
    ensures SizeStack(a + b) == SizeStack(b) + SizeStack(a)
  {
    if |b| == 0 {
      assert a + b == a;
    } else {
      var b' := b[..|b| - 1];
      ExpandStackAppend(a, b');
      assert (a + b)[..|a + b| - 1] == a + b';
    }
  }

  /** A grouped string is replaced on the stack by its children. */
  lemma ExpandUnfold(s: string)
    ensures FindGroup(s, 0).None? ==> Expand(s) == [s] && Size(s) == 1
    ensures FindGroup(s, 0).Some? ==>
      var g := FindGroup(s, 0).value;
      Expand(s) == ExpandStack(Children(s, g.0, g.1)) &&
      Size(s) == 1 + SizeStack(Children(s, g.0, g.1))
  {
    if FindGroup(s, 0).Some? {
      var g := FindGroup(s, 0).value;
      ExpandStackIsConcatRev(Children(s, g.0, g.1));
      SizeStackIsSumRev(Children(s, g.0, g.1));
    }
  }

  /** `seen` followed by the elements of `xs` not seen before, first
      occurrences only (the `prnt.indexOf(curr) == -1` test). */
  function AppendNew(seen: seq<string>, xs: seq<string>): (r: seq<string>)
    ensures |seen| <= |r| && r[..|seen|] == seen
    decreases |xs|
  {
    if |xs| == 0 then seen
    else AppendNew(if xs[0] in seen then seen else seen + [xs[0]], xs[1..])
  }

  ghost predicate Distinct(xs: seq<string>)
  {
    forall a, b :: 0 <= a < b < |xs| ==> xs[a] != xs[b]
  }

  /** Deduplication keeps `seen` as a prefix, adds exactly the elements of
      `xs`, and never repeats an element. */
  lemma {:induction false} AppendNewProperties(seen: seq<string>, xs: seq<string>)
    requires Distinct(seen)
    ensures AppendNew(seen, xs)[..|seen|] == seen
    ensures Distinct(AppendNew(seen, xs))
    ensures forall x :: x in AppendNew(seen, xs) <==> x in seen || x in xs
    decreases |xs|
  {
    if |xs| > 0 {
      var seen' := if xs[0] in seen then seen else seen + [xs[0]];
      AppendNewProperties(seen', xs[1..]);
      assert xs == [xs[0]] + xs[1..];
    }
  }

  lemma {:induction false} ConcatRevMember(xss: seq<seq<string>>, x: string)
    requires x in ConcatRev(xss)
    ensures exists k :: 0 <= k < |xss| && x in xss[k]
  {
    if |xss| > 0 {
      var last := xss[|xss| - 1];
      if x !in last {
        ConcatRevMember(xss[..|xss| - 1], x);
        var k :| 0 <= k < |xss| - 1 && x in xss[..|xss| - 1][k];
        assert x in xss[k];
      }
    }
  }

  /** Every finished string is free of groups. */
  lemma {:induction false} ExpandHasNoGroup(s: string, x: string)
    requires x in Expand(s)
    ensures !HasGroup(x)
    decreases Count(s, '{')
  {
    match FindGroup(s, 0)
    case None =>
      FindGroupNone(s);
    case Some(g) =>
      var cs := Children(s, g.0, g.1);
      var xss := seq(|cs|, k requires 0 <= k < |cs| => Expand(cs[k]));
      ConcatRevMember(xss, x);
      var k :| 0 <= k < |xss| && x in xss[k];
      ExpandHasNoGroup(cs[k], x);
  }

  /** A string without a group is its own only expansion. */
  lemma ExpandOfGroupFree(s: string)
    ensures !HasGroup(s) ==> Expand(s) == [s]
  {
    FindGroupNone(s);
  }

  /** expandBraces: the finished strings, each once, in first-seen order. No
      yielded string still holds a group, and a string with no group yields
      itself alone. */
  function ExpandBraces(s: string): (r: seq<string>)
    ensures Distinct(r)
    ensures forall x :: x in r ==> !HasGroup(x)
    ensures !HasGroup(s) ==> r == [s]
  {
    AppendNewProperties([], Expand(s));
    forall x | x in Expand(s)
      ensures !HasGroup(x)
    {
      ExpandHasNoGroup(s, x);
    }
    ExpandOfGroupFree(s);
    assert AppendNew([], [s]) == [s] by {
      assert [s][1..] == [];
    }
    AppendNew([], Expand(s))
  }

  /** When nothing repeats, deduplication changes nothing. */
  lemma {:induction false} AppendNewDistinct(seen: seq<string>, xs: seq<string>)
    requires Distinct(seen + xs)
    ensures AppendNew(seen, xs) == seen + xs
    decreases |xs|
  {
    if |xs| > 0 {
      var all := seen + xs;
      assert xs[0] !in seen by {
        forall a | 0 <= a < |seen|
          ensures seen[a] != xs[0]
        {
          assert all[a] == seen[a] && all[|seen|] == xs[0];
        }
      }
      assert seen + [xs[0]] + xs[1..] == all;
      AppendNewDistinct(seen + [xs[0]], xs[1..]);
    }
  }

  /** Deduplicating a concatenation is deduplicating its parts in turn. */
  lemma {:induction false} AppendNewConcat(seen: seq<string>, xs: seq<string>, ys: seq<string>)
    ensures AppendNew(seen, xs + ys) == AppendNew(AppendNew(seen, xs), ys)
    decreases |xs|
  {
    if |xs| > 0 {
      var seen' := if xs[0] in seen then seen else seen + [xs[0]];
      assert (xs + ys)[0] == xs[0] && (xs + ys)[1..] == xs[1..] + ys;
      AppendNewConcat(seen', xs[1..], ys);
    } else {
      assert xs + ys == ys;
    }
  }

  /** Strings already yielded are not yielded again. */
  lemma {:induction false} AppendNewSeen(seen: seq<string>, xs: seq<string>)
    requires forall k :: 0 <= k < |xs| ==> xs[k] in seen
    ensures AppendNew(seen, xs) == seen
    decreases |xs|
  {
    if |xs| > 0 {
      assert xs[0] in seen;
      AppendNewSeen(seen, xs[1..]);
    }
  }

  /** The first occurrences of xs, in order: a string is kept at the first
      place it appears and dropped wherever it appears again. Written from
      the right end, independently of the loop's left-to-right `prnt`. */
  function FirstOccurrences(xs: seq<string>): seq<string>
  {
    if |xs| == 0 then []
    else
      var init := xs[..|xs| - 1];
      FirstOccurrences(init) + (if xs[|xs| - 1] in init then [] else [xs[|xs| - 1]])
  }

  /** Deduplicating with an empty `prnt` keeps exactly the first occurrences. */
  lemma {:induction false} AppendNewFirst(xs: seq<string>)
    ensures AppendNew([], xs) == FirstOccurrences(xs)
    decreases |xs|
  {
    if |xs| > 0 {
      var init := xs[..|xs| - 1];
      var last := xs[|xs| - 1];
      assert xs == init + [last];
      AppendNewFirst(init);
      AppendNewConcat([], init, [last]);
      AppendNewProperties([], init);
      var r := AppendNew([], init);
      assert AppendNew(r, [last]) == (if last in r then r else r + [last]) by {
        assert [last][1..] == [];
      }
    }
  }

  /** expandBraces yields every string the expansion reaches and nothing
      else, each at its first occurrence in the expansion's order. */
  lemma ExpandBracesIsDedup(s: string)
    ensures ExpandBraces(s) == AppendNew([], Expand(s))
    ensures ExpandBraces(s) == FirstOccurrences(Expand(s))
    ensures forall x :: x in ExpandBraces(s) <==> x in Expand(s)
  {
    AppendNewFirst(Expand(s));
    AppendNewProperties([], Expand(s));
  }

  /** Popping a grouped string and pushing its children leaves the loop's
      eventual output unchanged and shrinks the remaining work. */
  lemma PopGroup(prnt: seq<string>, rest: seq<string>, curr: string)
    requires FindGroup(curr, 0).Some?
    ensures var g := FindGroup(curr, 0).value;
      var cs := Children(curr, g.0, g.1);
      && AppendNew(prnt, ExpandStack(rest + cs)) == AppendNew(prnt, ExpandStack(rest + [curr]))
      && SizeStack(rest + cs) < SizeStack(rest + [curr])
  {
    var g := FindGroup(curr, 0).value;
    var cs := Children(curr, g.0, g.1);
    ExpandUnfold(curr);
    ExpandStackAppend(rest, cs);
    ExpandStackAppend(rest, [curr]);
    assert ExpandStack([curr]) == Expand(curr) by {
      assert [curr][..0] == [];
    }
  }

  /** Popping a finished string yields it if it is new and shrinks the
      remaining work. */
  lemma PopLeaf(prnt: seq<string>, rest: seq<string>, curr: string)
    requires FindGroup(curr, 0).None?
    ensures AppendNew(if curr in prnt then prnt else prnt + [curr], ExpandStack(rest))
      == AppendNew(prnt, ExpandStack(rest + [curr]))
    ensures SizeStack(rest) < SizeStack(rest + [curr])
  {
    ExpandUnfold(curr);
    ExpandStackAppend(rest, [curr]);
    assert ExpandStack([curr]) == [curr] by {
      assert [curr][..0] == [];
    }
    assert ([curr] + ExpandStack(rest))[1..] == ExpandStack(rest);
  }

  /** The search finds the group at `i` when no group starts earlier. */
  lemma FindGroupIs(s: string, i: nat, j: nat)
    requires IsGroup(s, i, j)
    requires forall i', j' :: 0 <= i' < i ==> !IsGroup(s, i', j')
    ensures FindGroup(s, 0) == Some((i, j))
  {
    var g := FindGroup(s, 0).value;
    assert IsGroup(s, g.0, g.1);
    assert NextBrace(s, i + 1) == j;
    assert NextBrace(s, i + 1) == g.1;
  }

  /** An opening brace followed by another opening brace before any closing
      one does not start a group. */
  lemma NotGroupAt(s: string, k: nat, m: nat)
    requires k < m < |s| && s[k] == '{' && IsBrace(s[m])
    requires m == k + 1 || s[m] == '{'
    requires forall t :: k < t < m ==> !IsBrace(s[t])
    ensures forall j :: !IsGroup(s, k, j)
  {
  }

  /** A string without `{` has no group. */
  lemma NoOpenNoGroup(s: string)
    requires forall t :: 0 <= t < |s| ==> s[t] != '{'
    ensures !HasGroup(s)
  {
  }

  /** One rewrite step of the expansion, for a group found by hand. */
  lemma ExpandAtGroup(s: string, i: nat, j: nat)
    requires IsGroup(s, i, j)
    requires forall i', j' :: 0 <= i' < i ==> !IsGroup(s, i', j')
    ensures Expand(s) == ExpandStack(Children(s, i, j))
  {
    FindGroupIs(s, i, j);
    ExpandUnfold(s);
  }

  /** A string without `{` is finished as it is. */
  lemma ExpandLeaf(s: string)
    requires forall t :: 0 <= t < |s| ==> s[t] != '{'
    ensures Expand(s) == [s]
  {
    NoOpenNoGroup(s);
    ExpandOfGroupFree(s);
  }

  predicate Plain(t: string)
  {
    forall k :: 0 <= k < |t| ==> !IsBrace(t[k]) && t[k] != ','
  }

  /** `pre{body}post` has a group around `body` when the body is non-empty
      and brace-free. */
  lemma GroupAround(pre: string, body: string, post: string)
    requires |body| > 0 && forall k :: 0 <= k < |body| ==> !IsBrace(body[k])
    ensures var s := pre + "{" + body + "}" + post;
      var i, j := |pre|, |pre| + |body| + 1;
      && IsGroup(s, i, j) && s[..i] == pre && s[i + 1..j] == body && s[j + 1..] == post
  {
    var s := pre + "{" + body + "}" + post;
    var i, j := |pre|, |pre| + |body| + 1;
    forall k | i < k < j
      ensures s[k] == body[k - i - 1]
    {
    }
    assert s[i + 1..j] == body;
  }

  /** The children of a group whose alternatives are known. */
  lemma ChildrenAre(s: string, i: nat, j: nat, alts: seq<string>)
    requires IsGroup(s, i, j)
    requires forall i', j' :: 0 <= i' < i ==> !IsGroup(s, i', j')
    requires Alternatives(s, i, j) == alts
    ensures Children(s, i, j) == seq(|alts|, k requires 0 <= k < |alts| => s[..i] + alts[k] + s[j + 1..])
  {
  }

  lemma ExpandStack2(x: string, y: string)
    ensures ExpandStack([x, y]) == Expand(y) + Expand(x)
  {
    assert [x, y][..1] == [x];
    assert [x][..0] == [];
    assert ExpandStack([x]) == Expand(x);
  }

  lemma ExpandStack3(x: string, y: string, z: string)
    ensures ExpandStack([x, y, z]) == Expand(z) + Expand(y) + Expand(x)
  {
    assert [x, y, z][..2] == [x, y];
    ExpandStack2(x, y);
  }

  /** Expanding a group written out as its alternatives:
      `pre{alts[0],...,alts[n-1]}post` is replaced on the stack by
      `pre alts[k] post` for each k. */
  lemma ExpandRewrite(pre: string, alts: seq<string>, post: string)
    requires |alts| >= 1 && |Join(alts, ',')| > 0
    requires forall k :: 0 <= k < |alts| ==> Plain(alts[k])
    requires forall i', j' :: 0 <= i' < |pre| ==> !IsGroup(pre + "{" + Join(alts, ',') + "}" + post, i', j')
    ensures Expand(pre + "{" + Join(alts, ',') + "}" + post)
      == ExpandStack(seq(|alts|, k requires 0 <= k < |alts| => pre + alts[k] + post))
  {
    var body := Join(alts, ',');
    var s := pre + "{" + body + "}" + post;
    var i, j := |pre|, |pre| + |body| + 1;
    forall k | 0 <= k < |body|
      ensures !IsBrace(body[k])
    {
      if IsBrace(body[k]) {
        JoinChars(alts, ',', body[k]);
        assert false;
      }
    }
    forall m | 0 <= m < |alts|
      ensures ',' !in alts[m]
    {
      assert Plain(alts[m]);
    }
    GroupAround(pre, body, post);
    SplitJoin(alts, ',');
    ChildrenAre(s, i, j, alts);
    ExpandAtGroup(s, i, j);
  }

  /** The `forEach` over the alternatives: each rewritten string is pushed
      in turn, so the stack grows by exactly the children of `curr`. */
  method PushAlternatives(stack: seq<string>, curr: string, i: nat, j: nat) returns (stack': seq<string>)
    requires IsGroup(curr, i, j)
    requires forall i', j' :: 0 <= i' < i ==> !IsGroup(curr, i', j')
    ensures stack' == stack + Children(curr, i, j)
  {
    var subStr := Split(curr[i + 1..j], ',');
    ghost var cs := Children(curr, i, j);
    MatchIsFirstOccurrence(curr, i, j);
    stack' := stack;
    var k := 0;
    while k < |subStr|
      invariant 0 <= k <= |subStr|
      invariant stack' == stack + cs[..k]
    {
      stack' := stack' + [ReplaceFirst(curr, curr[i..j + 1], subStr[k])];
      assert cs[..k + 1] == cs[..k] + [cs[k]];
      k := k + 1;
    }
    assert cs[..k] == cs;
  }

  /** The stack as the loop starts: the input alone. */
  lemma StackOfOne(s: string)
    ensures ExpandStack([s]) == Expand(s)
  {
    assert [s][..0] == [];
  }

  /** The stack loop of expandBraces. It yields exactly `ExpandBraces(s)`:
      the invariant is that the strings already yielded, extended by what the
      stack still produces, give the final answer. */
  method ExpandBracesLoop(s: string) returns (out: seq<string>)
    ensures out == ExpandBraces(s)
  {
    var stack := [s];
    var prnt: seq<string> := [];
    StackOfOne(s);
    while |stack| > 0
      invariant AppendNew(prnt, ExpandStack(stack)) == ExpandBraces(s)
      decreases SizeStack(stack)
    {
      var curr := stack[|stack| - 1];
      var rest := stack[..|stack| - 1];
      LastOne(stack);
      stack := rest;
      var m := FindGroup(curr, 0);
      if m.Some? {
        stack := PushAlternatives(rest, curr, m.value.0, m.value.1);
        PopGroup(prnt, rest, curr);
      } else {
        PopLeaf(prnt, rest, curr);
        if curr !in prnt {
          prnt := prnt + [curr];
        }
      }
    }
    out := prnt;
  }
}
