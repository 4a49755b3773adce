/** The 32-point compass rose (createCompassPoints). Each quarter of the rose
    starts at a cardinal side and adds seven points towards the next side,
    built from the two side letters and the "b" ("by") notation. The
    azimuth of the point pushed k-th is 11.25 * k degrees. */
module Compass {

  datatype CompassPoint = CompassPoint(abbreviation: string, azimuth: real)

  /** The step between adjacent points: 11.25 degrees, exactly. */
  const Step: real := 45.0 / 4.0

  const Sides: seq<string> := ["N", "E", "S", "W"]

  /** The eight abbreviations pushed for quarter `i`, from `Sides[i]` up to,
      but excluding, the next side. Even and odd quarters name the
      intermediate points with the letters in different orders. */
  function QuarterNames(i: nat): (names: seq<string>)
    requires i < 4
    ensures |names| == 8
  {
    var side1 := Sides[i];
    var side2 := Sides[(i + 1) % 4];
    if i % 2 == 0 then
      [ side1,
        side1 + "b" + side2,
        side1 + side1 + side2,
        side1 + side2 + "b" + side1,
        side1 + side2,
        side1 + side2 + "b" + side2,
        side2 + side1 + side2,
        side2 + "b" + side1 ]
    else
      [ side1,
        side1 + "b" + side2,
        side1 + side2 + side1,
        side2 + side1 + "b" + side1,
        side2 + side1,
        side2 + side1 + "b" + side2,
        side2 + side2 + side1,
        side2 + "b" + side1 ]
  }

  /** `cp(str)`: the counter is the number of points pushed before this one. */
  function Cp(name: string, cnt: nat): CompassPoint
  {
    CompassPoint(name, Step * cnt as real)
  }

  /** The eight points quarter `i` pushes after `base` points. */
  function Block(i: nat, base: nat): (b: seq<CompassPoint>)
    requires i < 4
    ensures |b| == 8
  {
    var names := QuarterNames(i);
    seq(8, k requires 0 <= k < 8 => Cp(names[k], base + k))
  }

  /** Quarters `i..3` of the loop, appended to the points `arr` already pushed
      by quarters `0..i-1`. */
  function Quarters(i: nat, arr: seq<CompassPoint>): (r: seq<CompassPoint>)
    requires i <= 4 && |arr| == 8 * i
    ensures |r| == 32
    ensures r[..|arr|] == arr
    decreases 4 - i
  {
    if i == 4 then arr
    else
      var next := arr + Block(i, |arr|);
      var r := Quarters(i + 1, next);
      assert r[..|arr|] == next[..|arr|] == arr;
      r
  }

  /** Position k of the loop's result holds the name quarter k / 8 gives its
      (k % 8)-th push, at azimuth 11.25 * k. */
  lemma {:induction false} QuartersAt(i: nat, arr: seq<CompassPoint>, k: nat)
    requires i <= 4 && |arr| == 8 * i && |arr| <= k < 32
    ensures Quarters(i, arr)[k] == Cp(QuarterNames(k / 8)[k % 8], k)
    decreases 4 - i
  {
    var next := arr + Block(i, |arr|);
    if k < |next| {
      var r := Quarters(i + 1, next);
      assert r[k] == r[..|next|][k] == next[k];
      assert k / 8 == i && k % 8 == k - |arr|;
    } else {
      QuartersAt(i + 1, next, k);
    }
  }

  /** createCompassPoints: 32 points, the k-th at 11.25 * k degrees, all within
      [0, 360). */
  function CreateCompassPoints(): (r: seq<CompassPoint>)
    ensures |r| == 32
    ensures forall k :: 0 <= k < 32 ==> r[k].azimuth == Step * k as real
    ensures forall k :: 0 <= k < 32 ==> 0.0 <= r[k].azimuth < 360.0
  {
    var r := Quarters(0, []);
    assert forall k :: 0 <= k < 32 ==> r[k].azimuth == Step * k as real by {
      forall k | 0 <= k < 32
        ensures r[k].azimuth == Step * k as real
      {
        QuartersAt(0, [], k);
      }
    }
    r
  }

  /** The 32 abbreviations as listed in the usual table of the compass rose,
      starting at North and going clockwise. */
  const Rose: seq<string> := [
    "N", "NbE", "NNE", "NEbN", "NE", "NEbE", "ENE", "EbN",
    "E", "EbS", "ESE", "SEbE", "SE", "SEbS", "SSE", "SbE",
    "S", "SbW", "SSW", "SWbS", "SW", "SWbW", "WSW", "WbS",
    "W", "WbN", "WNW", "NWbW", "NW", "NWbN", "NNW", "NbW" ]

  /** Each quarter pushes the next eight names of the rose. */
  lemma QuarterNamesMatchRose(i: nat)
    requires i < 4
    ensures forall k :: 0 <= k < 8 ==> QuarterNames(i)[k] == Rose[8 * i + k]
  {
    if i == 0 {
      NorthEastQuarter();
    } else if i == 1 {
      EastSouthQuarter();
    } else if i == 2 {
      SouthWestQuarter();
    } else {
      WestNorthQuarter();
    }
  }

  lemma NorthEastQuarter()
    ensures forall k :: 0 <= k < 8 ==> QuarterNames(0)[k] == Rose[0 + k]
  {
    assert Sides[0] == "N" && Sides[1] == "E";
    var names := QuarterNames(0);
    assert names[0] == "N" && names[1] == "NbE" && names[2] == "NNE" && names[3] == "NEbN" && names[4] == "NE" && names[5] == "NEbE" && names[6] == "ENE" && names[7] == "EbN";
  }

  lemma EastSouthQuarter()
    ensures forall k :: 0 <= k < 8 ==> QuarterNames(1)[k] == Rose[8 + k]
  {
    assert Sides[1] == "E" && Sides[2] == "S";
    var names := QuarterNames(1);
    assert names[0] == "E" && names[1] == "EbS" && names[2] == "ESE" && names[3] == "SEbE" && names[4] == "SE" && names[5] == "SEbS" && names[6] == "SSE" && names[7] == "SbE";
  }

  lemma SouthWestQuarter()
    ensures forall k :: 0 <= k < 8 ==> QuarterNames(2)[k] == Rose[16 + k]
  {
    assert Sides[2] == "S" && Sides[3] == "W";
    var names := QuarterNames(2);
    assert names[0] == "S" && names[1] == "SbW" && names[2] == "SSW" && names[3] == "SWbS" && names[4] == "SW" && names[5] == "SWbW" && names[6] == "WSW" && names[7] == "WbS";
  }

  lemma WestNorthQuarter()
    ensures forall k :: 0 <= k < 8 ==> QuarterNames(3)[k] == Rose[24 + k]
  {
    assert Sides[3] == "W" && Sides[0] == "N";
    var names := QuarterNames(3);
    assert names[0] == "W" && names[1] == "WbN" && names[2] == "WNW" && names[3] == "NWbW" && names[4] == "NW" && names[5] == "NWbN" && names[6] == "NNW" && names[7] == "NbW";
  }

  /** The generated abbreviations are exactly the compass rose table. */
  lemma CompassMatchesRose()
    ensures forall k :: 0 <= k < 32 ==> CreateCompassPoints()[k].abbreviation == Rose[k]
  {
    forall k | 0 <= k < 32
      ensures CreateCompassPoints()[k].abbreviation == Rose[k]
    {
      NameAt(k);
    }
  }

  lemma NameAt(k: nat)
    requires k < 32
    ensures CreateCompassPoints()[k].abbreviation == Rose[k]
  {
    var q, j := k / 8, k % 8;
    QuartersAt(0, [], k);
    QuarterNamesMatchRose(q);
    assert k == 8 * q + j;
  }

  /** The cardinal, intercardinal and first and last "by" points. */
  lemma CompassLandmarks()
    ensures CreateCompassPoints()[0] == CompassPoint("N", 0.0)
    ensures CreateCompassPoints()[8] == CompassPoint("E", 90.0)
    ensures CreateCompassPoints()[16] == CompassPoint("S", 180.0)
    ensures CreateCompassPoints()[24] == CompassPoint("W", 270.0)
    ensures CreateCompassPoints()[4].abbreviation == "NE"
    ensures CreateCompassPoints()[12].abbreviation == "SE"
    ensures CreateCompassPoints()[20].abbreviation == "SW"
    ensures CreateCompassPoints()[28].abbreviation == "NW"
    ensures CreateCompassPoints()[1] == CompassPoint("NbE", 11.25)
    ensures CreateCompassPoints()[31] == CompassPoint("NbW", 348.75)
  {
    CompassMatchesRose();
  }

  /** Azimuths strictly increase and abbreviations never repeat. */
  lemma CompassPointsDistinct()
    ensures forall k, m :: 0 <= k < m < 32 ==>
      CreateCompassPoints()[k].azimuth < CreateCompassPoints()[m].azimuth
    ensures forall k, m :: 0 <= k < m < 32 ==>
      CreateCompassPoints()[k].abbreviation != CreateCompassPoints()[m].abbreviation
  {
    CompassMatchesRose();
    RoseDistinct();
    var r := CreateCompassPoints();
    forall k, m | 0 <= k < m < 32
      ensures r[k].azimuth < r[m].azimuth
    {
      assert Step * k as real < Step * m as real;
    }
  }

  lemma RoseDistinct()
    ensures forall k, m :: 0 <= k < m < 32 ==> Rose[k] != Rose[m]
  {
    forall k, m | 0 <= k < m < 32
      ensures Rose[k] != Rose[m]
    {
      if |Rose[k]| == |Rose[m]| {
        if |Rose[k]| == 1 {
          assert Rose[k][0] != Rose[m][0];
        }
      }
    }
  }
}
