/** canDominoesMakeRow: a tally of the faces 0..6 followed by a parity test.
    The source keeps counts in steps of 0.5; here every count is doubled, so
    it is a natural number of half-units and "fractional" means "odd". */
module Dominoes {

  datatype Domino = Domino(left: nat, right: nat)

  /** The faces of a standard set: 0 to 6 pips, one counter each. */
  const Faces: nat := 7

  predicate ValidTile(t: Domino)
  {
    t.left < Faces && t.right < Faces
  }

  predicate ValidSet(ds: seq<Domino>)
  {
    forall k :: 0 <= k < |ds| ==> ValidTile(ds[k])
  }

  predicate IsDouble(t: Domino)
  {
    t.left == t.right
  }

  /** One face of a non-double tile: half a unit when the count is
      fractional, a whole unit otherwise. */
  function AddFace(c: seq<nat>, x: nat): (r: seq<nat>)
    requires |c| == Faces && x < Faces
    ensures |r| == Faces
  {
    if c[x] % 2 == 1 then c[x := c[x] + 1] else c[x := c[x] + 2]
  }

  /** The tally step of one tile. A double adds two units to a face already
      counted and half a unit to a fresh one. Faces not on the tile keep
      their counts, and the tile's faces always grow. */
  function AddTile(c: seq<nat>, t: Domino): (r: seq<nat>)
    requires |c| == Faces && ValidTile(t)
    ensures |r| == Faces
    ensures forall x :: 0 <= x < Faces && x != t.left && x != t.right ==> r[x] == c[x]
    ensures r[t.left] > c[t.left] && r[t.right] > c[t.right]
  {
    if IsDouble(t) then
      if c[t.left] != 0 then c[t.left := c[t.left] + 4] else c[t.left := c[t.left] + 1]
    else
      AddFace(AddFace(c, t.left), t.right)
  }

  /** The counts, in half-units, after the tiles are visited in order. */
  function Tally(ds: seq<Domino>): (c: seq<nat>)
    requires ValidSet(ds)
    ensures |c| == Faces
  {
    if |ds| == 0 then seq(Faces, _ => 0)
    else AddTile(Tally(ds[..|ds| - 1]), ds[|ds| - 1])
  }

  /** The sum of `count % 2` over the first `k` faces, in half-units. */
  function OddHalves(c: seq<nat>, k: nat): nat
    requires k <= |c|
  {
    if k == 0 then 0 else OddHalves(c, k - 1) + c[k - 1] % 4
  }

  /** canDominoesMakeRow: `countOnes` is `OddHalves / 2`; the answer is false
      when it is odd or above 2, which in half-units is "not a multiple of 4,
      or above 4". */
  function CanDominoesMakeRow(ds: seq<Domino>): (r: bool)
    requires ValidSet(ds)
  {
    var d := OddHalves(Tally(ds), Faces);
    !(d % 4 != 0 || d > 4)
  }

  // ---- The tally in terms of the tiles ----

  /** Number of non-double tiles with an end showing face `x`. */
  function Degree(ds: seq<Domino>, x: nat): nat
  {
    if |ds| == 0 then 0
    else
      var t := ds[|ds| - 1];
      Degree(ds[..|ds| - 1], x)
        + (if !IsDouble(t) && t.left == x then 1 else 0)
        + (if !IsDouble(t) && t.right == x then 1 else 0)
  }

  /** Number of doubles `[x, x]`. */
  function Doubles(ds: seq<Domino>, x: nat): nat
  {
    if |ds| == 0 then 0
    else Doubles(ds[..|ds| - 1], x) + (if IsDouble(ds[|ds| - 1]) && ds[|ds| - 1].left == x then 1 else 0)
  }

  /** A face met only on doubles. */
  predicate LoneDoubleFace(ds: seq<Domino>, x: nat)
  {
    Degree(ds, x) == 0 && Doubles(ds, x) > 0
  }

  /** What face `x` contributes to `OddHalves`: one half-unit when it is met
      only on doubles, one unit when it is met on an odd number of
      non-double tile ends, nothing otherwise. */
  function FaceHalves(ds: seq<Domino>, x: nat): nat
  {
    if LoneDoubleFace(ds, x) then 1 else 2 * (Degree(ds, x) % 2)
  }

  /** Number of faces below `k` with an odd degree. */
  function OddFaces(ds: seq<Domino>, k: nat): nat
  {
    if k == 0 then 0 else OddFaces(ds, k - 1) + (if Degree(ds, k - 1) % 2 == 1 then 1 else 0)
  }

  /** Number of faces below `k` met only on doubles. */
  function LoneDoubles(ds: seq<Domino>, k: nat): nat
  {
    if k == 0 then 0 else LoneDoubles(ds, k - 1) + (if LoneDoubleFace(ds, k - 1) then 1 else 0)
  }

  /** How one face's count relates to the tiles met so far: it is zero
      exactly for an untouched face, odd exactly for a face met only on
      doubles, and modulo 4 half-units (2 units) it is one half-unit for such
      a face and otherwise one unit per odd degree. */
  predicate FaceInv(cx: nat, deg: nat, dbl: nat)
  {
    && (cx == 0 <==> deg == 0 && dbl == 0)
    && (cx % 2 == 1 <==> deg == 0 && dbl > 0)
    && cx % 4 == (if deg == 0 && dbl > 0 then 1 else 2 * (deg % 2))
  }

  lemma FaceInvDouble(cx: nat, deg: nat, dbl: nat)
    requires FaceInv(cx, deg, dbl)
    ensures FaceInv(if cx != 0 then cx + 4 else cx + 1, deg, dbl + 1)
  {
    if cx != 0 {
      assert (cx + 4) % 4 == cx % 4 && (cx + 4) % 2 == cx % 2;
    }
  }

  lemma FaceInvEnd(cx: nat, deg: nat, dbl: nat)
    requires FaceInv(cx, deg, dbl)
    ensures FaceInv(if cx % 2 == 1 then cx + 1 else cx + 2, deg + 1, dbl)
  {
  }

  /** Every face's count keeps `FaceInv` through the tally. */
  lemma {:induction false} TallyFace(ds: seq<Domino>, x: nat)
    requires ValidSet(ds) && x < Faces
    ensures FaceInv(Tally(ds)[x], Degree(ds, x), Doubles(ds, x))
  {
    if |ds| > 0 {
      var init, t := ds[..|ds| - 1], ds[|ds| - 1];
      assert ValidSet(init) && ValidTile(t);
      TallyFace(init, x);
      var c := Tally(init);
      var deg, dbl := Degree(init, x), Doubles(init, x);
      if x != t.left && x != t.right {
        assert Tally(ds)[x] == c[x];
      } else if IsDouble(t) {
        FaceInvDouble(c[x], deg, dbl);
      } else {
        FaceInvEnd(c[x], deg, dbl);
        if x == t.left {
          assert AddFace(c, t.left)[x] == (if c[x] % 2 == 1 then c[x] + 1 else c[x] + 2);
        } else {
          assert AddFace(c, t.left)[x] == c[x];
        }
      }
    }
  }

  /** The sum the source tests counts odd-degree faces twice and faces met
      only on doubles once. */
  lemma {:induction false} OddHalvesOfTally(ds: seq<Domino>, k: nat)
    requires ValidSet(ds) && k <= Faces
    ensures OddHalves(Tally(ds), k) == 2 * OddFaces(ds, k) + LoneDoubles(ds, k)
  {
    if k > 0 {
      OddHalvesOfTally(ds, k - 1);
      TallyFace(ds, k - 1);
    }
  }

  /** Number of non-double tiles. */
  function NonDoubles(ds: seq<Domino>): nat
  {
    if |ds| == 0 then 0 else NonDoubles(ds[..|ds| - 1]) + (if IsDouble(ds[|ds| - 1]) then 0 else 1)
  }

  /** The degrees of the first `k` faces, added up. */
  function DegreeSum(ds: seq<Domino>, k: nat): nat
  {
    if k == 0 then 0 else DegreeSum(ds, k - 1) + Degree(ds, k - 1)
  }

  /** Adding one tile to the set changes the degree sum by its ends below `k`. */
  lemma {:induction false} DegreeSumStep(ds: seq<Domino>, k: nat)
    requires |ds| > 0
    ensures var t := ds[|ds| - 1];
      DegreeSum(ds, k) == DegreeSum(ds[..|ds| - 1], k)
        + (if !IsDouble(t) && t.left < k then 1 else 0)
        + (if !IsDouble(t) && t.right < k then 1 else 0)
  {
    if k > 0 {
      DegreeSumStep(ds, k - 1);
    }
  }

  lemma {:induction false} DegreeSumEmpty(ds: seq<Domino>, k: nat)
    requires |ds| == 0
    ensures DegreeSum(ds, k) == 0
  {
    if k > 0 {
      DegreeSumEmpty(ds, k - 1);
    }
  }

  /** Handshake: every non-double tile has two ends, on two faces. */
  lemma {:induction false} Handshake(ds: seq<Domino>)
    requires ValidSet(ds)
    ensures DegreeSum(ds, Faces) == 2 * NonDoubles(ds)
  {
    if |ds| > 0 {
      assert ValidSet(ds[..|ds| - 1]) && ValidTile(ds[|ds| - 1]);
      Handshake(ds[..|ds| - 1]);
      DegreeSumStep(ds, Faces);
      var t := ds[|ds| - 1];
      assert t.left < Faces && t.right < Faces;
      assert NonDoubles(ds) == NonDoubles(ds[..|ds| - 1]) + (if IsDouble(t) then 0 else 1);
    } else {
      DegreeSumEmpty(ds, Faces);
    }
  }

  /** The degree sum and the number of odd degrees have the same parity. */
  lemma {:induction false} OddFacesParity(ds: seq<Domino>, k: nat)
    ensures OddFaces(ds, k) % 2 == DegreeSum(ds, k) % 2
  {
    if k > 0 {
      OddFacesParity(ds, k - 1);
    }
  }

  /** So the number of odd-degree faces is even. */
  lemma OddFacesEven(ds: seq<Domino>)
    requires ValidSet(ds)
    ensures OddFaces(ds, Faces) % 2 == 0
  {
    Handshake(ds);
    OddFacesParity(ds, Faces);
  }

  /** canDominoesMakeRow answers true exactly when either no face is met
      only on doubles and at most two faces have an odd degree, or exactly
      four faces are met only on doubles and every degree is even. (This is
      the degree half of the Euler-path test; connectivity is not checked,
      and a face met only on doubles counts half.) */
  lemma CanDominoesMakeRowIff(ds: seq<Domino>)
    requires ValidSet(ds)
    ensures CanDominoesMakeRow(ds) <==>
      (LoneDoubles(ds, Faces) == 0 && OddFaces(ds, Faces) <= 2) ||
      (LoneDoubles(ds, Faces) == 4 && OddFaces(ds, Faces) == 0)
  {
    OddHalvesOfTally(ds, Faces);
    OddFacesEven(ds);
  }

  /** The tally of a set with one more tile, visited last. */
  lemma TallyStep(ds: seq<Domino>, t: Domino, c: seq<nat>, c': seq<nat>)
    requires ValidSet(ds) && ValidTile(t) && Tally(ds) == c && AddTile(c, t) == c'
    ensures ValidSet(ds + [t])
    ensures Tally(ds + [t]) == c'
  {
    assert (ds + [t])[..|ds|] == ds;
  }

  /** The sum `OddHalves` takes over the seven faces, written out. */
  lemma OddHalvesOfFaces(c: seq<nat>)
    requires |c| == Faces
    ensures OddHalves(c, Faces) == c[0] % 4 + c[1] % 4 + c[2] % 4 + c[3] % 4 + c[4] % 4 + c[5] % 4 + c[6] % 4
  {
    assert OddHalves(c, 1) == c[0] % 4;
    assert OddHalves(c, 2) == OddHalves(c, 1) + c[1] % 4;
    assert OddHalves(c, 3) == OddHalves(c, 2) + c[2] % 4;
    assert OddHalves(c, 4) == OddHalves(c, 3) + c[3] % 4;
    assert OddHalves(c, 5) == OddHalves(c, 4) + c[4] % 4;
    assert OddHalves(c, 6) == OddHalves(c, 5) + c[5] % 4;
  }

  /** The verdict read off a known tally. */
  lemma Verdict(ds: seq<Domino>, c: seq<nat>)
    requires ValidSet(ds) && Tally(ds) == c
    ensures var d := c[0] % 4 + c[1] % 4 + c[2] % 4 + c[3] % 4 + c[4] % 4 + c[5] % 4 + c[6] % 4;
      CanDominoesMakeRow(ds) == (d % 4 == 0 && d <= 4)
  {
    OddHalvesOfFaces(c);
  }

  lemma TallyEmpty(ds: seq<Domino>)
    requires ds == []
    ensures Tally(ds) == [0, 0, 0, 0, 0, 0, 0]
  {
  }

  /** The documented examples, tallied tile by tile. */
  lemma TallyOfExample1(ds: seq<Domino>)
    requires ds == [Domino(0, 1), Domino(1, 1)]
    ensures ValidSet(ds) && Tally(ds) == [2, 6, 0, 0, 0, 0, 0]
  {
    var d0: seq<Domino> := [];
    TallyEmpty(d0);
    TallyStep(d0, Domino(0, 1), [0, 0, 0, 0, 0, 0, 0], [2, 2, 0, 0, 0, 0, 0]);
    var d1 := d0 + [Domino(0, 1)];
    TallyStep(d1, Domino(1, 1), [2, 2, 0, 0, 0, 0, 0], [2, 6, 0, 0, 0, 0, 0]);
    var d2 := d1 + [Domino(1, 1)];
    assert ds == d2;
  }

  lemma DominoesExample1(ds: seq<Domino>)
    requires ds == [Domino(0, 1), Domino(1, 1)]
    ensures CanDominoesMakeRow(ds)
  {
    TallyOfExample1(ds);
    Verdict(ds, [2, 6, 0, 0, 0, 0, 0]);
  }

  lemma TallyOfExample2(ds: seq<Domino>)
    requires ds == [Domino(1, 1), Domino(2, 2), Domino(1, 5), Domino(5, 6), Domino(6, 3)]
    ensures ValidSet(ds) && Tally(ds) == [0, 2, 1, 2, 0, 4, 4]
  {
    var d0: seq<Domino> := [];
    TallyEmpty(d0);
    TallyStep(d0, Domino(1, 1), [0, 0, 0, 0, 0, 0, 0], [0, 1, 0, 0, 0, 0, 0]);
    var d1 := d0 + [Domino(1, 1)];
    TallyStep(d1, Domino(2, 2), [0, 1, 0, 0, 0, 0, 0], [0, 1, 1, 0, 0, 0, 0]);
    var d2 := d1 + [Domino(2, 2)];
    TallyStep(d2, Domino(1, 5), [0, 1, 1, 0, 0, 0, 0], [0, 2, 1, 0, 0, 2, 0]);
    var d3 := d2 + [Domino(1, 5)];
    TallyStep(d3, Domino(5, 6), [0, 2, 1, 0, 0, 2, 0], [0, 2, 1, 0, 0, 4, 2]);
    var d4 := d3 + [Domino(5, 6)];
    TallyStep(d4, Domino(6, 3), [0, 2, 1, 0, 0, 4, 2], [0, 2, 1, 2, 0, 4, 4]);
    var d5 := d4 + [Domino(6, 3)];
    assert ds == d5;
  }

  lemma DominoesExample2(ds: seq<Domino>)
    requires ds == [Domino(1, 1), Domino(2, 2), Domino(1, 5), Domino(5, 6), Domino(6, 3)]
    ensures !CanDominoesMakeRow(ds)
  {
    TallyOfExample2(ds);
    Verdict(ds, [0, 2, 1, 2, 0, 4, 4]);
  }

  lemma TallyOfExample3Start(ds: seq<Domino>)
    requires ds == [Domino(1, 3), Domino(2, 3), Domino(1, 4)]
    ensures ValidSet(ds) && Tally(ds) == [0, 4, 2, 4, 2, 0, 0]
  {
    var d0: seq<Domino> := [];
    TallyEmpty(d0);
    TallyStep(d0, Domino(1, 3), [0, 0, 0, 0, 0, 0, 0], [0, 2, 0, 2, 0, 0, 0]);
    var d1 := d0 + [Domino(1, 3)];
    TallyStep(d1, Domino(2, 3), [0, 2, 0, 2, 0, 0, 0], [0, 2, 2, 4, 0, 0, 0]);
    var d2 := d1 + [Domino(2, 3)];
    TallyStep(d2, Domino(1, 4), [0, 2, 2, 4, 0, 0, 0], [0, 4, 2, 4, 2, 0, 0]);
    var d3 := d2 + [Domino(1, 4)];
    assert ds == d3;
  }

  lemma TallyOfExample3(ds: seq<Domino>)
    requires ds == [Domino(1, 3), Domino(2, 3), Domino(1, 4), Domino(2, 4), Domino(1, 5), Domino(2, 5)]
    ensures ValidSet(ds) && Tally(ds) == [0, 6, 6, 4, 4, 4, 0]
  {
    var d3 := ds[..3];
    TallyOfExample3Start(d3);
    TallyStep(d3, Domino(2, 4), [0, 4, 2, 4, 2, 0, 0], [0, 4, 4, 4, 4, 0, 0]);
    var d4 := d3 + [Domino(2, 4)];
    TallyStep(d4, Domino(1, 5), [0, 4, 4, 4, 4, 0, 0], [0, 6, 4, 4, 4, 2, 0]);
    var d5 := d4 + [Domino(1, 5)];
    TallyStep(d5, Domino(2, 5), [0, 6, 4, 4, 4, 2, 0], [0, 6, 6, 4, 4, 4, 0]);
    var d6 := d5 + [Domino(2, 5)];
    assert ds == d6;
  }

  lemma DominoesExample3(ds: seq<Domino>)
    requires ds == [Domino(1, 3), Domino(2, 3), Domino(1, 4), Domino(2, 4), Domino(1, 5), Domino(2, 5)]
    ensures CanDominoesMakeRow(ds)
  {
    TallyOfExample3(ds);
    Verdict(ds, [0, 6, 6, 4, 4, 4, 0]);
  }

  lemma TallyOfExample4Start(ds: seq<Domino>)
    requires ds == [Domino(0, 0), Domino(0, 1), Domino(1, 1)]
    ensures ValidSet(ds) && Tally(ds) == [2, 6, 0, 0, 0, 0, 0]
  {
    var d0: seq<Domino> := [];
    TallyEmpty(d0);
    TallyStep(d0, Domino(0, 0), [0, 0, 0, 0, 0, 0, 0], [1, 0, 0, 0, 0, 0, 0]);
    var d1 := d0 + [Domino(0, 0)];
    TallyStep(d1, Domino(0, 1), [1, 0, 0, 0, 0, 0, 0], [2, 2, 0, 0, 0, 0, 0]);
    var d2 := d1 + [Domino(0, 1)];
    TallyStep(d2, Domino(1, 1), [2, 2, 0, 0, 0, 0, 0], [2, 6, 0, 0, 0, 0, 0]);
    var d3 := d2 + [Domino(1, 1)];
    assert ds == d3;
  }

  lemma TallyOfExample4Middle(ds: seq<Domino>)
    requires ds == [Domino(0, 0), Domino(0, 1), Domino(1, 1), Domino(0, 2), Domino(1, 2), Domino(2, 2)]
    ensures ValidSet(ds) && Tally(ds) == [4, 8, 8, 0, 0, 0, 0]
  {
    var d3 := ds[..3];
    TallyOfExample4Start(d3);
    TallyStep(d3, Domino(0, 2), [2, 6, 0, 0, 0, 0, 0], [4, 6, 2, 0, 0, 0, 0]);
    var d4 := d3 + [Domino(0, 2)];
    TallyStep(d4, Domino(1, 2), [4, 6, 2, 0, 0, 0, 0], [4, 8, 4, 0, 0, 0, 0]);
    var d5 := d4 + [Domino(1, 2)];
    TallyStep(d5, Domino(2, 2), [4, 8, 4, 0, 0, 0, 0], [4, 8, 8, 0, 0, 0, 0]);
    var d6 := d5 + [Domino(2, 2)];
    assert ds == d6;
  }

  lemma TallyOfExample4(ds: seq<Domino>)
    requires ds == [Domino(0, 0), Domino(0, 1), Domino(1, 1), Domino(0, 2), Domino(1, 2), Domino(2, 2), Domino(0, 3), Domino(1, 3), Domino(2, 3), Domino(3, 3)]
    ensures ValidSet(ds) && Tally(ds) == [6, 10, 10, 10, 0, 0, 0]
  {
    var d6 := ds[..6];
    TallyOfExample4Middle(d6);
    TallyStep(d6, Domino(0, 3), [4, 8, 8, 0, 0, 0, 0], [6, 8, 8, 2, 0, 0, 0]);
    var d7 := d6 + [Domino(0, 3)];
    TallyStep(d7, Domino(1, 3), [6, 8, 8, 2, 0, 0, 0], [6, 10, 8, 4, 0, 0, 0]);
    var d8 := d7 + [Domino(1, 3)];
    TallyStep(d8, Domino(2, 3), [6, 10, 8, 4, 0, 0, 0], [6, 10, 10, 6, 0, 0, 0]);
    var d9 := d8 + [Domino(2, 3)];
    TallyStep(d9, Domino(3, 3), [6, 10, 10, 6, 0, 0, 0], [6, 10, 10, 10, 0, 0, 0]);
    var d10 := d9 + [Domino(3, 3)];
    assert ds == d10;
  }

  lemma DominoesExample4(ds: seq<Domino>)
    requires ds == [Domino(0, 0), Domino(0, 1), Domino(1, 1), Domino(0, 2), Domino(1, 2), Domino(2, 2), Domino(0, 3), Domino(1, 3), Domino(2, 3), Domino(3, 3)]
    ensures !CanDominoesMakeRow(ds)
  {
    TallyOfExample4(ds);
    Verdict(ds, [6, 10, 10, 10, 0, 0, 0]);
  }
}
