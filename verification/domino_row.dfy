/** What canDominoesMakeRow is documented to decide: whether all the tiles
    can be laid in one row, each tile turned either way, with touching ends
    showing the same face. `CanMakeRow` searches for such a row and is proved
    to answer exactly that; the lemmas at the end exhibit inputs on which the
    parity test of `Dominoes.CanDominoesMakeRow` answers differently. */
module DominoRow {
  import opened Dominoes

  function Flip(t: Domino): Domino
  {
    Domino(t.right, t.left)
  }

  /** A tile up to turning it round. */
  function Norm(t: Domino): (u: Domino)
    ensures u == t || u == Flip(t)
    ensures u.left <= u.right
  {
    if t.left <= t.right then t else Flip(t)
  }

  function NormAll(ds: seq<Domino>): (r: seq<Domino>)
    ensures |r| == |ds|
    ensures forall k :: 0 <= k < |ds| ==> r[k] == Norm(ds[k])
  {
    seq(|ds|, k requires 0 <= k < |ds| => Norm(ds[k]))
  }

  /** The same tiles, each possibly turned round. */
  ghost predicate SameTiles(row: seq<Domino>, ds: seq<Domino>)
  {
    multiset(NormAll(row)) == multiset(NormAll(ds))
  }

  /** Touching ends match. */
  ghost predicate IsRow(row: seq<Domino>)
  {
    forall k :: 0 <= k < |row| - 1 ==> row[k].right == row[k + 1].left
  }

  ghost predicate StartsWith(row: seq<Domino>, end: nat)
  {
    |row| > 0 ==> row[0].left == end
  }

  function Remove(s: seq<Domino>, k: nat): seq<Domino>
    requires k < |s|
  {
    s[..k] + s[k + 1..]
  }

  /** Can all of `rest` be laid in a row whose first free end must show
      `end`? Try every tile that has `end` on one side, turned so that side
      touches. */
  function ChainFrom(end: nat, rest: seq<Domino>): bool
    decreases |rest|
  {
    |rest| == 0 ||
    exists k :: 0 <= k < |rest| &&
      ((rest[k].left == end && ChainFrom(rest[k].right, Remove(rest, k))) ||
       (rest[k].right == end && ChainFrom(rest[k].left, Remove(rest, k))))
  }

  /** The intended answer: some face of some tile starts a row of all tiles. */
  function CanMakeRow(ds: seq<Domino>): bool
  {
    |ds| == 0 ||
    exists k :: 0 <= k < |ds| && (ChainFrom(ds[k].left, ds) || ChainFrom(ds[k].right, ds))
  }

  lemma NormFlip(t: Domino)
    ensures Norm(Flip(t)) == Norm(t)
  {
  }

  /** Two tiles are the same up to turning exactly when they normalise alike. */
  lemma NormEq(t: Domino, u: Domino)
    requires Norm(t) == Norm(u)
    ensures u == t || u == Flip(t)
  {
  }

  lemma NormAllConcat(a: seq<Domino>, b: seq<Domino>)
    ensures NormAll(a + b) == NormAll(a) + NormAll(b)
  {
  }

  /** Taking tile `k` out removes one copy of it from the tiles. */
  lemma RemoveTiles(s: seq<Domino>, k: nat)
    requires k < |s|
    ensures multiset(NormAll(s)) == multiset(NormAll(Remove(s, k))) + multiset{Norm(s[k])}
  {
    assert s == s[..k] + [s[k]] + s[k + 1..];
    NormAllConcat(s[..k] + [s[k]], s[k + 1..]);
    NormAllConcat(s[..k], [s[k]]);
    NormAllConcat(s[..k], s[k + 1..]);
  }

  /** Putting a tile in front adds one copy of it to the tiles. */
  lemma ConsTiles(t: Domino, row: seq<Domino>)
    ensures multiset(NormAll([t] + row)) == multiset{Norm(t)} + multiset(NormAll(row))
  {
    NormAllConcat([t], row);
  }

  /** A tile of a row is a tile of any set with the same tiles. */
  lemma FindTile(row: seq<Domino>, ds: seq<Domino>)
    requires SameTiles(row, ds) && |row| > 0
    ensures exists k :: 0 <= k < |ds| && Norm(ds[k]) == Norm(row[0])
  {
    assert NormAll(row)[0] in multiset(NormAll(row));
    assert Norm(row[0]) in NormAll(ds);
  }

  /** A tile in front of a row of the other tiles gives a row of all of them. */
  lemma ConsSameTiles(t: Domino, row: seq<Domino>, rest: seq<Domino>, k: nat)
    requires k < |rest| && Norm(t) == Norm(rest[k])
    requires SameTiles(row, Remove(rest, k))
    ensures SameTiles([t] + row, rest)
  {
    ConsTiles(t, row);
    RemoveTiles(rest, k);
  }

  /** Taking the first tile off a row and its copy out of the set keeps the
      tiles alike. */
  lemma TailSameTiles(row: seq<Domino>, rest: seq<Domino>, k: nat)
    requires |row| > 0 && k < |rest| && Norm(rest[k]) == Norm(row[0])
    requires SameTiles(row, rest)
    ensures SameTiles(row[1..], Remove(rest, k))
  {
    var x := Norm(row[0]);
    assert row == [row[0]] + row[1..];
    ConsTiles(row[0], row[1..]);
    RemoveTiles(rest, k);
    var a, b := multiset(NormAll(row[1..])), multiset(NormAll(Remove(rest, k)));
    assert a + multiset{x} == b + multiset{x};
    assert a == (a + multiset{x}) - multiset{x};
    assert b == (b + multiset{x}) - multiset{x};
  }

  lemma ConsRow(t: Domino, row: seq<Domino>)
    requires IsRow(row) && StartsWith(row, t.right)
    ensures IsRow([t] + row) && StartsWith([t] + row, t.left)
  {
    var r := [t] + row;
    forall m | 0 <= m < |r| - 1
      ensures r[m].right == r[m + 1].left
    {
      if m > 0 {
        assert r[m] == row[m - 1] && r[m + 1] == row[m];
      }
    }
  }

  /** The search only succeeds on a real row. */
  lemma {:induction false} ChainSound(end: nat, rest: seq<Domino>)
    requires ChainFrom(end, rest)
    ensures exists row :: IsRow(row) && SameTiles(row, rest) && StartsWith(row, end)
    decreases |rest|
  {
    if |rest| == 0 {
      assert IsRow([]) && SameTiles([], rest) && StartsWith([], end);
    } else {
      var k :| 0 <= k < |rest| &&
        ((rest[k].left == end && ChainFrom(rest[k].right, Remove(rest, k))) ||
         (rest[k].right == end && ChainFrom(rest[k].left, Remove(rest, k))));
      var t := if rest[k].left == end && ChainFrom(rest[k].right, Remove(rest, k)) then rest[k] else Flip(rest[k]);
      NormFlip(rest[k]);
      assert t.left == end && ChainFrom(t.right, Remove(rest, k)) && Norm(t) == Norm(rest[k]);
      ChainSound(t.right, Remove(rest, k));
      var row :| IsRow(row) && SameTiles(row, Remove(rest, k)) && StartsWith(row, t.right);
      ConsRow(t, row);
      ConsSameTiles(t, row, rest, k);
    }
  }

  /** Whenever a row exists, the search finds one. */
  lemma {:induction false} ChainComplete(end: nat, rest: seq<Domino>, row: seq<Domino>)
    requires IsRow(row) && SameTiles(row, rest) && StartsWith(row, end)
    ensures ChainFrom(end, rest)
    decreases |rest|
  {
    if |rest| > 0 {
      assert |multiset(NormAll(row))| == |row| && |multiset(NormAll(rest))| == |rest|;
      FindTile(row, rest);
      var k :| 0 <= k < |rest| && Norm(rest[k]) == Norm(row[0]);
      NormEq(row[0], rest[k]);
      TailSameTiles(row, rest, k);
      var tail := row[1..];
      assert StartsWith(tail, row[0].right) && IsRow(tail) by {
        forall m | 0 <= m < |tail| - 1
          ensures tail[m].right == tail[m + 1].left
        {
          assert tail[m] == row[m + 1] && tail[m + 1] == row[m + 2];
        }
      }
      ChainComplete(row[0].right, Remove(rest, k), tail);
      if rest[k] == row[0] {
        assert rest[k].left == end && ChainFrom(rest[k].right, Remove(rest, k));
      } else {
        assert rest[k].right == end && ChainFrom(rest[k].left, Remove(rest, k));
      }
    }
  }

  /** `CanMakeRow` answers whether the tiles can be laid in one row. */
  lemma CanMakeRowIff(ds: seq<Domino>)
    ensures CanMakeRow(ds) <==> exists row :: IsRow(row) && SameTiles(row, ds)
  {
    if CanMakeRow(ds) && |ds| > 0 {
      var k :| 0 <= k < |ds| && (ChainFrom(ds[k].left, ds) || ChainFrom(ds[k].right, ds));
      if ChainFrom(ds[k].left, ds) {
        ChainSound(ds[k].left, ds);
      } else {
        ChainSound(ds[k].right, ds);
      }
    } else if |ds| == 0 {
      assert IsRow([]) && SameTiles([], ds);
    }
    if row: seq<Domino> :| IsRow(row) && SameTiles(row, ds) {
      if |ds| > 0 {
        assert |multiset(NormAll(row))| == |row| && |multiset(NormAll(ds))| == |ds|;
        FindTile(row, ds);
        var k :| 0 <= k < |ds| && Norm(ds[k]) == Norm(row[0]);
        NormEq(row[0], ds[k]);
        ChainComplete(row[0].left, ds, row);
        assert row[0].left == ds[k].left || row[0].left == ds[k].right;
      }
    }
  }

  /** No tile shows `end`, so nothing can be laid next to it. */
  lemma NoMatch(end: nat, rest: seq<Domino>)
    requires |rest| > 0
    requires forall k :: 0 <= k < |rest| ==> rest[k].left != end && rest[k].right != end
    ensures !ChainFrom(end, rest)
  {
  }

  /** A single double is already a row, but the parity test rejects it: its
      face counts half a unit. */
  lemma SingleDoubleRejected()
    ensures !CanDominoesMakeRow([Domino(1, 1)])
    ensures CanMakeRow([Domino(1, 1)])
  {
    var ds := [Domino(1, 1)];
    assert IsRow(ds) && SameTiles(ds, ds);
    CanMakeRowIff(ds);
  }

  /** Four doubles with no face in common cannot be joined, but the parity
      test accepts them: four half-units make the two units it allows. */
  lemma FourDoublesAccepted(ds: seq<Domino>)
    requires ds == [Domino(1, 1), Domino(2, 2), Domino(3, 3), Domino(4, 4)]
    ensures CanDominoesMakeRow(ds)
    ensures !CanMakeRow(ds)
  {
    FourDoublesTally(ds);
    Verdict(ds, [0, 1, 1, 1, 1, 0, 0]);
    FourDoublesStuck(ds);
  }

  lemma FourDoublesTally(ds: seq<Domino>)
    requires ds == [Domino(1, 1), Domino(2, 2), Domino(3, 3), Domino(4, 4)]
    ensures ValidSet(ds) && Tally(ds) == [0, 1, 1, 1, 1, 0, 0]
  {
    var d0: seq<Domino> := [];
    TallyEmpty(d0);
    TallyStep(d0, Domino(1, 1), [0, 0, 0, 0, 0, 0, 0], [0, 1, 0, 0, 0, 0, 0]);
    var d1 := d0 + [Domino(1, 1)];
    TallyStep(d1, Domino(2, 2), [0, 1, 0, 0, 0, 0, 0], [0, 1, 1, 0, 0, 0, 0]);
    var d2 := d1 + [Domino(2, 2)];
    TallyStep(d2, Domino(3, 3), [0, 1, 1, 0, 0, 0, 0], [0, 1, 1, 1, 0, 0, 0]);
    var d3 := d2 + [Domino(3, 3)];
    TallyStep(d3, Domino(4, 4), [0, 1, 1, 1, 0, 0, 0], [0, 1, 1, 1, 1, 0, 0]);
    assert ds == d3 + [Domino(4, 4)];
  }

  lemma FourDoublesStuck(ds: seq<Domino>)
    requires ds == [Domino(1, 1), Domino(2, 2), Domino(3, 3), Domino(4, 4)]
    ensures !CanMakeRow(ds)
  {
    forall k | 0 <= k < 4
      ensures !ChainFrom(ds[k].left, ds) && !ChainFrom(ds[k].right, ds)
    {
      FirstDoubleStuck(ds, k);
    }
  }

  /** Starting on a double whose face no other tile shows gets stuck after
      the first tile. */
  lemma FirstDoubleStuck(ds: seq<Domino>, k: nat)
    requires ds == [Domino(1, 1), Domino(2, 2), Domino(3, 3), Domino(4, 4)] && k < 4
    ensures !ChainFrom(ds[k].left, ds)
  {
    var e := ds[k].left;
    forall m | 0 <= m < 4 && (ds[m].left == e || ds[m].right == e)
      ensures !ChainFrom(e, Remove(ds, m))
    {
      assert m == k;
      var rest := Remove(ds, m);
      assert |rest| == 3;
      forall q | 0 <= q < 3
        ensures rest[q].left != e && rest[q].right != e
      {
        assert rest[q] == (if q < m then ds[q] else ds[q + 1]);
      }
      NoMatch(e, rest);
    }
  }
}
