/** The coordinate walk of `gen_xyz` (stat_xplore_table.py): every (x, y, z) below the three bounds,
    x outermost and z innermost. */
module Coordinates {

  datatype Coord = Coord(x: nat, y: nat, z: nat)

  predicate InBounds(c: Coord, xMax: nat, yMax: nat, zMax: nat)
  {
    c.x < xMax && c.y < yMax && c.z < zMax
  }

  /** The row-major position of a coordinate in a cube of the given shape. */
  function Offset(c: Coord, yMax: nat, zMax: nat): nat
  {
    (c.x * yMax + c.y) * zMax + c.z
  }

  /** Lexicographic order, x compared first. */
  predicate LexLess(a: Coord, b: Coord)
  {
    a.x < b.x || (a.x == b.x && (a.y < b.y || (a.y == b.y && a.z < b.z)))
  }

  /** The innermost `for z in range(zMax)` loop for a fixed x and y. */
  function Line(x: nat, y: nat, zMax: nat): seq<Coord>
    decreases zMax
  {
    if zMax == 0 then [] else Line(x, y, zMax - 1) + [Coord(x, y, zMax - 1)]
  }

  /** The `for y` loop with the z loop inside it, for a fixed x. */
  function Plane(x: nat, yMax: nat, zMax: nat): seq<Coord>
    decreases yMax
  {
    if yMax == 0 then [] else Plane(x, yMax - 1, zMax) + Line(x, yMax - 1, zMax)
  }

  /** All three loops: the sequence of triples the generator yields. */
  function Grid(xMax: nat, yMax: nat, zMax: nat): seq<Coord>
    decreases xMax
  {
    if xMax == 0 then [] else Grid(xMax - 1, yMax, zMax) + Plane(xMax - 1, yMax, zMax)
  }

  /** Comparing q1 * d + r1 with q2 * d + r2 for remainders below d compares the pairs lexicographically. */
  lemma QuotientRemainderOrder(q1: nat, r1: nat, q2: nat, r2: nat, d: nat)
    requires r1 < d && r2 < d
    ensures q1 * d + r1 < q2 * d + r2 <==> q1 < q2 || (q1 == q2 && r1 < r2)
    ensures q1 * d + r1 == q2 * d + r2 <==> q1 == q2 && r1 == r2
  {
    if q1 < q2 {
      assert (q1 + 1) * d <= q2 * d;
    } else if q2 < q1 {
      assert (q2 + 1) * d <= q1 * d;
    }
  }

  lemma {:induction false} LineFacts(x: nat, y: nat, zMax: nat)
    ensures |Line(x, y, zMax)| == zMax
    ensures forall k :: 0 <= k < zMax ==> Line(x, y, zMax)[k] == Coord(x, y, k)
    decreases zMax
  {
    if zMax > 0 {
      LineFacts(x, y, zMax - 1);
    }
  }

  lemma {:induction false} PlaneFacts(x: nat, yMax: nat, zMax: nat)
    ensures |Plane(x, yMax, zMax)| == yMax * zMax
    ensures forall k :: 0 <= k < yMax * zMax ==>
      var c := Plane(x, yMax, zMax)[k];
      c.x == x && c.y < yMax && c.z < zMax && c.y * zMax + c.z == k
    decreases yMax
  {
    if yMax > 0 {
      PlaneFacts(x, yMax - 1, zMax);
      LineFacts(x, yMax - 1, zMax);
      var before := (yMax - 1) * zMax;
      assert yMax * zMax == before + zMax;
      forall k | before <= k < yMax * zMax
        ensures var c := Plane(x, yMax, zMax)[k];
          c.x == x && c.y < yMax && c.z < zMax && c.y * zMax + c.z == k
      {
        assert Plane(x, yMax, zMax)[k] == Line(x, yMax - 1, zMax)[k - before];
      }
    }
  }

  /** One more plane of yMax * zMax triples. */
  lemma GridGrowth(px: nat, yMax: nat, zMax: nat)
    ensures (px + 1) * yMax * zMax == px * yMax * zMax + yMax * zMax
  {
  }

  /** The offset of a triple in plane px is the size of the planes before it plus its offset in the
      plane. */
  lemma OffsetShift(c: Coord, px: nat, yMax: nat, zMax: nat)
    requires c.x == px
    ensures Offset(c, yMax, zMax) == px * yMax * zMax + (c.y * zMax + c.z)
  {
    assert (px * yMax + c.y) * zMax == px * yMax * zMax + c.y * zMax;
  }

  /** The generator yields xMax * yMax * zMax triples; the i-th is within bounds and sits at its own
      row-major offset. */
  lemma {:induction false} GridFacts(xMax: nat, yMax: nat, zMax: nat)
    ensures |Grid(xMax, yMax, zMax)| == xMax * yMax * zMax
    ensures forall i :: 0 <= i < |Grid(xMax, yMax, zMax)| ==>
      InBounds(Grid(xMax, yMax, zMax)[i], xMax, yMax, zMax) &&
      Offset(Grid(xMax, yMax, zMax)[i], yMax, zMax) == i
    decreases xMax
  {
    if xMax > 0 {
      var px := xMax - 1;
      GridFacts(px, yMax, zMax);
      PlaneFacts(px, yMax, zMax);
      var before := px * yMax * zMax;
      GridGrowth(px, yMax, zMax);
      var g := Grid(xMax, yMax, zMax);
      forall i | before <= i < |g|
        ensures InBounds(g[i], xMax, yMax, zMax) && Offset(g[i], yMax, zMax) == i
      {
        var c := Plane(px, yMax, zMax)[i - before];
        assert g[i] == c;
        OffsetShift(c, px, yMax, zMax);
      }
    }
  }

  /** An in-bounds coordinate has an offset inside the cube. */
  lemma OffsetBelowSize(c: Coord, xMax: nat, yMax: nat, zMax: nat)
    requires InBounds(c, xMax, yMax, zMax)
    ensures Offset(c, yMax, zMax) < xMax * yMax * zMax
  {
    var q := c.x * yMax + c.y;
    QuotientRemainderOrder(c.x, c.y, xMax, 0, yMax);
    assert q < xMax * yMax;
    QuotientRemainderOrder(q, c.z, xMax * yMax, 0, zMax);
    assert q * zMax + c.z < (xMax * yMax) * zMax;
  }

  /** Distinct in-bounds coordinates have distinct offsets. */
  lemma OffsetInjective(a: Coord, b: Coord, yMax: nat, zMax: nat)
    requires a.y < yMax && a.z < zMax && b.y < yMax && b.z < zMax
    requires Offset(a, yMax, zMax) == Offset(b, yMax, zMax)
    ensures a == b
  {
    QuotientRemainderOrder(a.x * yMax + a.y, a.z, b.x * yMax + b.y, b.z, zMax);
    QuotientRemainderOrder(a.x, a.y, b.x, b.y, yMax);
  }

  /** Every in-bounds coordinate is yielded, at offset (x * yMax + y) * zMax + z. */
  lemma GridAt(xMax: nat, yMax: nat, zMax: nat, c: Coord)
    requires InBounds(c, xMax, yMax, zMax)
    ensures Offset(c, yMax, zMax) < |Grid(xMax, yMax, zMax)|
    ensures Grid(xMax, yMax, zMax)[Offset(c, yMax, zMax)] == c
  {
    GridFacts(xMax, yMax, zMax);
    OffsetBelowSize(c, xMax, yMax, zMax);
    var d := Grid(xMax, yMax, zMax)[Offset(c, yMax, zMax)];
    OffsetInjective(c, d, yMax, zMax);
  }

  /** The triples come in strictly increasing lexicographic order (x outermost, z innermost). */
  lemma GridSorted(xMax: nat, yMax: nat, zMax: nat)
    ensures forall i, j :: 0 <= i < j < |Grid(xMax, yMax, zMax)| ==>
      LexLess(Grid(xMax, yMax, zMax)[i], Grid(xMax, yMax, zMax)[j])
  {
    GridFacts(xMax, yMax, zMax);
    var g := Grid(xMax, yMax, zMax);
    forall i, j | 0 <= i < j < |g|
      ensures LexLess(g[i], g[j])
    {
      var a, b := g[i], g[j];
      QuotientRemainderOrder(a.x * yMax + a.y, a.z, b.x * yMax + b.y, b.z, zMax);
      QuotientRemainderOrder(a.x, a.y, b.x, b.y, yMax);
    }
  }

  /** `gen_xyz`: the triple-nested range loops, collecting what the generator yields. */
  method GenXyz(xMax: nat, yMax: nat, zMax: nat) returns (xyz: seq<Coord>)
    ensures xyz == Grid(xMax, yMax, zMax)
    ensures |xyz| == xMax * yMax * zMax
    ensures forall i :: 0 <= i < |xyz| ==>
      InBounds(xyz[i], xMax, yMax, zMax) && Offset(xyz[i], yMax, zMax) == i
  {
    xyz := [];
    for x := 0 to xMax
      invariant xyz == Grid(x, yMax, zMax)
    {
      for y := 0 to yMax
        invariant xyz == Grid(x, yMax, zMax) + Plane(x, y, zMax)
      {
        for z := 0 to zMax
          invariant xyz == Grid(x, yMax, zMax) + Plane(x, y, zMax) + Line(x, y, z)
        {
          xyz := xyz + [Coord(x, y, z)];
        }
      }
    }
    GridFacts(xMax, yMax, zMax);
  }
}
