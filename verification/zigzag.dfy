/** The zigzag matrix (getZigZagMatrix): the cells of an n x n matrix are
    numbered 0, 1, 2, ... along the anti-diagonals i + j = 0, 1, ..., 2n - 2,
    walking even diagonals upwards (row decreasing) and odd diagonals
    downwards (row increasing), as in the JPEG coefficient order. */
module ZigZag {

  /** The first and last row of diagonal `s` (the cells with i + j == s). */
  function Low(n: nat, s: int): int
  {
    if s < n then 0 else s - n + 1
  }

  function High(n: nat, s: int): int
  {
    if s < n then s else n - 1
  }

  predicate OnDiagonal(n: nat, s: int, i: int)
  {
    Low(n, s) <= i <= High(n, s)
  }

  function DiagLen(n: nat, s: nat): nat
  {
    if s <= 2 * n - 2 then High(n, s) - Low(n, s) + 1 else 0
  }

  /** Number of cells on the diagonals before diagonal `s`. */
  function Before(n: nat, s: nat): nat
  {
    if s == 0 then 0 else Before(n, s - 1) + DiagLen(n, s - 1)
  }

  /** The number of cell (i, j): its diagonal's offset plus its position along
      the walk of that diagonal. */
  function Zig(n: nat, i: nat, j: nat): (v: nat)
    requires i < n && j < n
    ensures Before(n, i + j) <= v < Before(n, i + j + 1)
  {
    var s := i + j;
    if s % 2 == 0 then Before(n, s) + (High(n, s) - i)
    else Before(n, s) + (High(n, s) - j)
  }

  /** The matrix the reference numbering describes. */
  function ZigMatrix(n: nat): (m: seq<seq<nat>>)
    ensures IsSquare(m, n)
  {
    seq(n, i requires 0 <= i < n => seq(n, j requires 0 <= j < n => Zig(n, i, j)))
  }

  ghost predicate IsSquare<T>(m: seq<seq<T>>, n: nat)
  {
    |m| == n && forall i :: 0 <= i < n ==> |m[i]| == n
  }

  function Min(a: int, b: int): int
  {
    if a <= b then a else b
  }

  /** The cells numbered below `ok` hold their numbers; the rest are still 0. */
  ghost predicate FilledBelow(arr: seq<seq<int>>, n: nat, ok: nat)
  {
    IsSquare(arr, n) &&
    forall a, b :: 0 <= a < n && 0 <= b < n ==>
      arr[a][b] == if Zig(n, a, b) < ok then Zig(n, a, b) else 0
  }

  /** getZigZagMatrix: the loop over the diagonals, each walked in its own
      direction while the cursor stays inside the matrix. Every cell receives
      the number the reference numbering gives it. */
  method GetZigZagMatrix(n: nat) returns (arr: seq<seq<int>>)
    ensures IsSquare(arr, n)
    ensures forall i, j :: 0 <= i < n && 0 <= j < n ==> arr[i][j] == Zig(n, i, j)
  {
    var ok := 0;
    arr := seq(n, _ => seq(n, _ => 0));
    var s := 0;
    while s <= 2 * (n - 1)
      invariant 0 <= s && (n > 0 ==> s <= 2 * n - 1) && (n == 0 ==> s == 0)
      invariant ok == Before(n, s)
      invariant FilledBelow(arr, n, ok)
      decreases 2 * n - s
    {
      if s % 2 == 0 {
        arr, ok := WalkUp(arr, n, s, ok);
      } else {
        arr, ok := WalkDown(arr, n, s, ok);
      }
      s := s + 1;
    }
    if n > 0 {
      FilledAll(arr, n);
    }
  }

  /** An even diagonal: start at its lowest row and move up and to the right
      until the cursor leaves the matrix. */
  method WalkUp(arr: seq<seq<int>>, n: nat, s: nat, ok: nat) returns (arr': seq<seq<int>>, ok': nat)
    requires s <= 2 * n - 2 && s % 2 == 0
    requires ok == Before(n, s) && FilledBelow(arr, n, ok)
    ensures ok' == Before(n, s + 1) && FilledBelow(arr', n, ok')
  {
    arr', ok' := arr, ok;
    var i := Min(s, n - 1);
    var j := s - i;
    while i >= 0 && i < n && j >= 0 && j < n
      invariant j == s - i
      invariant Low(n, s) - 1 <= i <= High(n, s)
      invariant ok' == Before(n, s) + (High(n, s) - i)
      invariant FilledBelow(arr', n, ok')
      decreases i + 1
    {
      WalkInside(n, s, i);
      WalkCell(n, s, i);
      FillStep(arr', n, ok', i, j);
      arr' := arr'[i := arr'[i][j := ok']];
      ok' := ok' + 1;
      i := i - 1;
      j := j + 1;
    }
    WalkEnds(n, s, i);
  }

  /** An odd diagonal: start at its rightmost column and move down and to
      the left until the cursor leaves the matrix. */
  method WalkDown(arr: seq<seq<int>>, n: nat, s: nat, ok: nat) returns (arr': seq<seq<int>>, ok': nat)
    requires s <= 2 * n - 2 && s % 2 == 1
    requires ok == Before(n, s) && FilledBelow(arr, n, ok)
    ensures ok' == Before(n, s + 1) && FilledBelow(arr', n, ok')
  {
    arr', ok' := arr, ok;
    var j := Min(s, n - 1);
    var i := s - j;
    while i >= 0 && i < n && j >= 0 && j < n
      invariant i == s - j
      invariant Low(n, s) - 1 <= j <= High(n, s)
      invariant ok' == Before(n, s) + (High(n, s) - j)
      invariant FilledBelow(arr', n, ok')
      decreases j + 1
    {
      WalkInside(n, s, j);
      WalkCell(n, s, j);
      FillStep(arr', n, ok', i, j);
      arr' := arr'[i := arr'[i][j := ok']];
      ok' := ok' + 1;
      i := i + 1;
      j := j - 1;
    }
    WalkEnds(n, s, j);
  }

  /** A cursor between the ends of diagonal `s` is inside the matrix. */
  lemma WalkInside(n: nat, s: int, k: int)
    requires 0 <= s <= 2 * n - 2
    requires Low(n, s) <= k <= High(n, s)
    ensures 0 <= k < n && 0 <= s - k < n
  {
  }

  /** The cell under the cursor gets the next number of its diagonal, whichever
      way the diagonal is walked. */
  lemma WalkCell(n: nat, s: nat, k: nat)
    requires 0 <= s <= 2 * n - 2
    requires Low(n, s) <= k <= High(n, s)
    ensures Zig(n, k, s - k) == Before(n, s) + (if s % 2 == 0 then High(n, s) - k else High(n, s) - (s - k))
    ensures Zig(n, s - k, k) == Before(n, s) + (if s % 2 == 0 then High(n, s) - (s - k) else High(n, s) - k)
  {
  }

  /** A cursor that has left the matrix has passed the whole diagonal, so
      the count has reached the next diagonal's first number. */
  lemma WalkEnds(n: nat, s: nat, k: int)
    requires 0 <= s <= 2 * n - 2
    requires Low(n, s) - 1 <= k <= High(n, s)
    requires !(0 <= k < n && 0 <= s - k < n)
    ensures Before(n, s) + (High(n, s) - k) == Before(n, s + 1)
  {
  }

  /** Writing the next number into its cell keeps the fill ordered. */
  lemma FillStep(arr: seq<seq<int>>, n: nat, ok: nat, i: nat, j: nat)
    requires FilledBelow(arr, n, ok)
    requires i < n && j < n && Zig(n, i, j) == ok
    ensures FilledBelow(arr[i := arr[i][j := ok]], n, ok + 1)
  {
    var arr' := arr[i := arr[i][j := ok]];
    forall a, b | 0 <= a < n && 0 <= b < n
      ensures arr'[a][b] == if Zig(n, a, b) < ok + 1 then Zig(n, a, b) else 0
    {
      if Zig(n, a, b) == ok {
        ZigInjective(n, a, b, i, j);
      }
    }
  }

  /** Once every diagonal is walked, every cell is filled. */
  lemma FilledAll(arr: seq<seq<int>>, n: nat)
    requires n > 0
    requires FilledBelow(arr, n, Before(n, 2 * n - 1))
    ensures forall a, b :: 0 <= a < n && 0 <= b < n ==> arr[a][b] == Zig(n, a, b)
  {
    forall a, b | 0 <= a < n && 0 <= b < n
      ensures arr[a][b] == Zig(n, a, b)
    {
      ZigRange(n, a, b);
      AllCells(n);
    }
  }

  /** Later diagonals start later. */
  lemma {:induction false} BeforeMonotone(n: nat, s: nat, t: nat)
    requires s <= t
    ensures Before(n, s) <= Before(n, t)
    decreases t - s
  {
    if s < t {
      BeforeMonotone(n, s, t - 1);
    }
  }

  /** Every diagonal of the matrix holds at least one cell, so a later
      diagonal starts strictly after an earlier one ends. */
  lemma BeforeStrict(n: nat, s: nat, t: nat)
    requires s < t <= 2 * n - 1
    ensures 1 <= DiagLen(n, s) && Before(n, s) + DiagLen(n, s) <= Before(n, t)
  {
    BeforeMonotone(n, s + 1, t);
  }

  /** The first diagonals form a triangle. */
  lemma {:induction false} BeforeLow(n: nat, s: nat)
    requires s <= n
    ensures 2 * Before(n, s) == s * (s + 1)
  {
    if s > 0 {
      BeforeLow(n, s - 1);
      assert DiagLen(n, s - 1) == s;
      assert s * (s + 1) == (s - 1) * s + 2 * s;
    }
  }

  /** `k * (k - 1)`: twice the number of cells in a triangle of side k - 1. */
  function Pairs(k: int): int
  {
    k * (k - 1)
  }

  lemma PairsStep(k: int)
    ensures Pairs(k + 1) == Pairs(k) + 2 * k
  {
    assert (k + 1) * k == k * k + k;
    assert k * (k - 1) == k * k - k;
  }

  /** Past the main anti-diagonal, a triangle is missing at the far corner. */
  lemma {:induction false} BeforeHigh(n: nat, s: nat)
    requires n <= s <= 2 * n - 1
    ensures 2 * Before(n, s) == 2 * n * n - Pairs(2 * n - s)
    decreases s
  {
    if s == n {
      BeforeLow(n, n);
      assert n * (n + 1) == n * n + n;
      assert Pairs(n) == n * n - n;
    } else {
      BeforeHigh(n, s - 1);
      assert DiagLen(n, s - 1) == 2 * n - s;
      PairsStep(2 * n - s);
    }
  }

  /** The diagonals together hold all n * n cells. */
  lemma AllCells(n: nat)
    requires n > 0
    ensures Before(n, 2 * n - 1) == n * n
  {
    BeforeHigh(n, 2 * n - 1);
  }

  /** The numbers are 0 .. n * n - 1. */
  lemma ZigRange(n: nat, i: nat, j: nat)
    requires i < n && j < n
    ensures Zig(n, i, j) < n * n
  {
    AllCells(n);
    BeforeMonotone(n, i + j + 1, 2 * n - 1);
  }

  /** No number is given to two cells. */
  lemma ZigInjective(n: nat, i: nat, j: nat, i': nat, j': nat)
    requires i < n && j < n && i' < n && j' < n
    requires Zig(n, i, j) == Zig(n, i', j')
    ensures i == i' && j == j'
  {
    if i + j < i' + j' {
      BeforeMonotone(n, i + j + 1, i' + j');
    } else if i' + j' < i + j {
      BeforeMonotone(n, i' + j' + 1, i + j);
    } else if (i + j) % 2 == 0 {
      assert High(n, i + j) - i == High(n, i + j) - i';
    } else {
      assert High(n, i + j) - j == High(n, i + j) - j';
    }
  }

  /** Every number below `Before(n, t)` falls inside some diagonal before `t`. */
  lemma {:induction false} DiagonalOf(n: nat, t: nat, v: nat)
    requires v < Before(n, t)
    ensures exists s :: 0 <= s < t && Before(n, s) <= v < Before(n, s + 1)
  {
    assert t > 0;
    if v < Before(n, t - 1) {
      DiagonalOf(n, t - 1, v);
      var s :| 0 <= s < t - 1 && Before(n, s) <= v < Before(n, s + 1);
    } else {
      assert Before(n, t - 1) <= v < Before(n, t - 1 + 1);
    }
  }

  /** Every number 0 .. n * n - 1 is given to some cell. */
  lemma ZigSurjective(n: nat, v: nat)
    requires v < n * n
    ensures exists i, j :: 0 <= i < n && 0 <= j < n && Zig(n, i, j) == v
  {
    assert n > 0;
    AllCells(n);
    DiagonalOf(n, 2 * n - 1, v);
    var s :| 0 <= s < 2 * n - 1 && Before(n, s) <= v < Before(n, s + 1);
    DiagonalCell(n, s, v - Before(n, s));
  }

  /** Each position along a diagonal is the number of one of its cells. */
  lemma DiagonalCell(n: nat, s: nat, o: nat)
    requires s < 2 * n - 1 && Before(n, s) + o < Before(n, s + 1)
    ensures exists i, j :: 0 <= i < n && 0 <= j < n && Zig(n, i, j) == Before(n, s) + o
  {
    if s % 2 == 0 {
      var i := High(n, s) - o;
      var j := s - i;
      assert Zig(n, i, j) == Before(n, s) + o;
    } else {
      var j := High(n, s) - o;
      var i := s - j;
      assert Zig(n, i, j) == Before(n, s) + o;
    }
  }

  /** The walk starts in the top-left corner and ends in the bottom-right one. */
  lemma ZigCorners(n: nat)
    requires n > 0
    ensures Zig(n, 0, 0) == 0
    ensures Zig(n, n - 1, n - 1) == n * n - 1
  {
    AllCells(n);
  }

  /** Consecutive numbers sit in cells that touch (side or corner): the
      numbering is one unbroken path through the matrix. */
  lemma ZigPath(n: nat, i: nat, j: nat, i': nat, j': nat)
    requires i < n && j < n && i' < n && j' < n
    requires Zig(n, i', j') == Zig(n, i, j) + 1
    ensures -1 <= i' - i <= 1 && -1 <= j' - j <= 1
  {
    var s, s' := i + j, i' + j';
    if s' < s {
      BeforeMonotone(n, s' + 1, s);
    } else if s' > s + 1 {
      BeforeStrict(n, s + 1, s');
    } else if s' == s + 1 {
      PathNextDiagonal(n, i, j, i', j');
    } else {
      PathSameDiagonal(n, i, j, i', j');
    }
  }

  /** Along a diagonal the walk moves one cell diagonally at a time. */
  lemma PathSameDiagonal(n: nat, i: nat, j: nat, i': nat, j': nat)
    requires i < n && j < n && i' < n && j' < n && i' + j' == i + j
    requires Zig(n, i', j') == Zig(n, i, j) + 1
    ensures if (i + j) % 2 == 0 then i' == i - 1 && j' == j + 1 else i' == i + 1 && j' == j - 1
  {
  }

  /** Leaving a diagonal: its last cell and the next diagonal's first cell
      are neighbours. */
  lemma PathNextDiagonal(n: nat, i: nat, j: nat, i': nat, j': nat)
    requires i < n && j < n && i' < n && j' < n && i' + j' == i + j + 1
    requires Zig(n, i', j') == Zig(n, i, j) + 1
    ensures -1 <= i' - i <= 1 && -1 <= j' - j <= 1
  {
    var s := i + j;
    assert Zig(n, i', j') == Before(n, s + 1);
    assert Zig(n, i, j) == Before(n, s) + DiagLen(n, s) - 1;
    if s % 2 == 0 {
      assert i == Low(n, s) && j' == High(n, s + 1);
    } else {
      assert j == Low(n, s) && i' == High(n, s + 1);
    }
  }

  /** The documented matrices for n = 1, 2, 3 and 4. */
  lemma ZigZagExample1()
    ensures ZigMatrix(1) == [[0]]
  {
    assert Before(1, 0) == 0 && Before(1, 1) == 1;
    var m := ZigMatrix(1);
    assert m[0][0] == 0;
    assert m[0] == [0];
  }

  lemma ZigZagExample2()
    ensures ZigMatrix(2) == [[0, 1], [2, 3]]
  {
    assert Before(2, 0) == 0 && Before(2, 1) == 1 && Before(2, 2) == 3 && Before(2, 3) == 4;
    var m := ZigMatrix(2);
    assert m[0][0] == 0 && m[0][1] == 1;
    assert m[0] == [0, 1];
    assert m[1][0] == 2 && m[1][1] == 3;
    assert m[1] == [2, 3];
  }

  lemma ZigZagExample3()
    ensures ZigMatrix(3) == [[0, 1, 5], [2, 4, 6], [3, 7, 8]]
  {
    assert Before(3, 0) == 0 && Before(3, 1) == 1 && Before(3, 2) == 3 && Before(3, 3) == 6 && Before(3, 4) == 8 && Before(3, 5) == 9;
    var m := ZigMatrix(3);
    assert m[0][0] == 0 && m[0][1] == 1 && m[0][2] == 5;
    assert m[0] == [0, 1, 5];
    assert m[1][0] == 2 && m[1][1] == 4 && m[1][2] == 6;
    assert m[1] == [2, 4, 6];
    assert m[2][0] == 3 && m[2][1] == 7 && m[2][2] == 8;
    assert m[2] == [3, 7, 8];
  }

  lemma ZigZagExample4()
    ensures ZigMatrix(4) == [[0, 1, 5, 6], [2, 4, 7, 12], [3, 8, 11, 13], [9, 10, 14, 15]]
  {
    assert Before(4, 0) == 0 && Before(4, 1) == 1 && Before(4, 2) == 3 && Before(4, 3) == 6 && Before(4, 4) == 10 && Before(4, 5) == 13 && Before(4, 6) == 15 && Before(4, 7) == 16;
    var m := ZigMatrix(4);
    assert m[0][0] == 0 && m[0][1] == 1 && m[0][2] == 5 && m[0][3] == 6;
    assert m[0] == [0, 1, 5, 6];
    assert m[1][0] == 2 && m[1][1] == 4 && m[1][2] == 7 && m[1][3] == 12;
    assert m[1] == [2, 4, 7, 12];
    assert m[2][0] == 3 && m[2][1] == 8 && m[2][2] == 11 && m[2][3] == 13;
    assert m[2] == [3, 8, 11, 13];
    assert m[3][0] == 9 && m[3][1] == 10 && m[3][2] == 14 && m[3][3] == 15;
    assert m[3] == [9, 10, 14, 15];
  }
}
