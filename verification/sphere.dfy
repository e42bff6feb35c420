/** The unit sphere: a top cap fanned around the north pole, bands of
    quads between consecutive rings, and a bottom cap fanned around the
    south pole.  Ring j is the circle at polar angle j * v_rad, slice i the
    meridian at azimuth i * u_rad; Lat(i, j) is their crossing.

    Two generators are modelled: the one sphere() implements, and a
    corrected one that differs in the middle loop bound and in the closing
    bottom triangle. */
module Sphere {
  import opened Mesh

  const SphereSlices := 20
  const SphereStacks := 20

  /** sphereNumVertices: the size the arrays are declared with, and the
      count glDrawArrays draws. */
  const SphereNumVertices := 3 * (2 * SphereSlices + 2 * SphereSlices * (SphereStacks - 2))

  /** Top-cap triangle t: (north pole, Lat(t, 1), Lat(t + 1, 1)), each
      vertex with its own radial normal. */
  function TopTri(slices: int, t: int): Face {
    Face(North, Lat(t, 1), Lat(Next(t, slices), 1), Smooth)
  }

  function TopCap(slices: int): (r: seq<Face>)
    requires slices >= 2
    ensures |r| == slices
  {
    seq(slices, t => TopTri(slices, t))
  }

  /** The two triangles sphere() emits for the quad p1, p2, p3, p4:
      (p1, p2, p3) and (p1, p3, p4), radially shaded. */
  function CellFaces(p1: Point, p2: Point, p3: Point, p4: Point): seq<Face> {
    [Face(p1, p2, p3, Smooth), Face(p1, p3, p4, Smooth)]
  }

  /** Triangle h of cell i in band j, the quad between slices i and i + 1
      and rings j and j + 1. */
  function BandTri(slices: int, j: int, i: int, h: int): Face
    requires 0 <= h < 2
  {
    var i' := Next(i, slices);
    CellFaces(Lat(i, j), Lat(i, j + 1), Lat(i', j + 1), Lat(i', j))[h]
  }

  /** Band j: cells 0 .. slices - 1, two triangles each. */
  function Band(slices: int, j: int): (r: seq<Face>)
    requires slices >= 2
    ensures |r| == 2 * slices
  {
    seq(2 * slices, q => BandTri(slices, j, q / 2, q % 2))
  }

  /** Cell i of a band occupies triangles 2i and 2i + 1. */
  lemma BandCell(slices: int, j: int, i: int)
    requires slices >= 2 && 0 <= i < slices
    ensures Band(slices, j)[2 * i..2 * i + 2]
         == CellFaces(Lat(i, j), Lat(i, j + 1), Lat(Next(i, slices), j + 1), Lat(Next(i, slices), j))
  {
    var band := Band(slices, j);
    assert (2 * i) / 2 == i && (2 * i) % 2 == 0;
    assert (2 * i + 1) / 2 == i && (2 * i + 1) % 2 == 1;
    assert band[2 * i] == BandTri(slices, j, i, 0);
    assert band[2 * i + 1] == BandTri(slices, j, i, 1);
  }

  /** Emitting cell i after the first i cells gives the first i + 1. */
  lemma BandPrefix(slices: int, j: int, i: int)
    requires slices >= 2 && 0 <= i < slices
    ensures Band(slices, j)[..2 * i]
              + CellFaces(Lat(i, j), Lat(i, j + 1), Lat(Next(i, slices), j + 1), Lat(Next(i, slices), j))
         == Band(slices, j)[..2 * i + 2]
  {
    var band := Band(slices, j);
    BandCell(slices, j, i);
    assert band[..2 * i + 2] == band[..2 * i] + band[2 * i..2 * i + 2];
  }

  /** Bands lo .. hi - 1, in order; empty when hi <= lo. */
  function Bands(slices: int, lo: int, hi: int): (r: seq<Face>)
    requires slices >= 2
    decreases hi - lo
  {
    if hi <= lo then [] else Bands(slices, lo, hi - 1) + Band(slices, hi - 1)
  }

  /** Bottom-cap triangle t: (south pole, Lat(t + 1, r), Lat(t, r)) on the
      last ring r = stacks - 1, flat-shaded from its own corners. */
  function BottomTri(slices: int, stacks: int, t: int): Face {
    Face(South, Lat(Next(t, slices), stacks - 1), Lat(t, stacks - 1), FlatShaded)
  }

  function BottomCap(slices: int, stacks: int): (r: seq<Face>)
    requires slices >= 2
    ensures |r| == slices
  {
    seq(slices, t => BottomTri(slices, stacks, t))
  }

  /** The bottom cap as sphere() writes it: the loop's triangles, then a
      closing triangle whose last two corners are swapped. */
  function BottomCapAsWritten(slices: int, stacks: int): (r: seq<Face>)
    requires slices >= 2
    ensures |r| == slices
  {
    BottomCap(slices, stacks)[..slices - 1]
      + [Face(South, Lat(slices - 1, stacks - 1), Lat(0, stacks - 1), FlatShaded)]
  }

  /** What sphere(slices, stacks) writes: the middle loop stops one band
      short (j < stacks - 2). */
  function SphereFacesAsWritten(slices: int, stacks: int): seq<Face>
    requires slices >= 2
  {
    TopCap(slices) + Bands(slices, 1, stacks - 2) + BottomCapAsWritten(slices, stacks)
  }

  /** The intended sphere: every band between rings 1 and stacks - 1, and a
      bottom cap that keeps one winding throughout. */
  function SphereFaces(slices: int, stacks: int): seq<Face>
    requires slices >= 2
  {
    TopCap(slices) + Bands(slices, 1, stacks - 1) + BottomCap(slices, stacks)
  }

  // ---------------------------------------------------------------------
  // The generator, region by region, as the loops of sphere() run.

  /** The first stack: slices - 1 loop triangles, then the closing one from
      the last p2 back to Lat(0, 1). */
  method EmitTopCap(slices: int, points: seq<Vertex>, at: int) returns (out: seq<Vertex>, idx: int)
    requires slices >= 2 && 0 <= at && at + 3 * slices <= |points|
    ensures idx == at + 3 * slices
    ensures Emitted(points, out, at, TopCap(slices))
  {
    var cap := TopCap(slices);
    out := points;
    idx := at;
    var p1, p2 := Origin, Origin;
    var i := 0;
    EmittedNothing(points, at);
    while i < slices - 1
      invariant 0 <= i <= slices - 1
      invariant idx == at + 3 * i
      invariant i > 0 ==> p2 == Lat(i, 1)
      invariant Emitted(points, out, at, cap[..i])
    {
      p1 := Lat(i, 1);
      p2 := Lat(i + 1, 1);
      var f := Face(North, p1, p2, Smooth);
      assert f == cap[i];
      assert cap[..i] + [f] == cap[..i + 1];
      out := EmitMore(points, out, at, cap[..i], [f], cap[..i + 1]);
      idx, i := idx + 3, i + 1;
    }
    p1 := p2;
    p2 := Lat(0, 1);
    var f := Face(North, p1, p2, Smooth);
    assert f == cap[slices - 1];
    assert cap[..i] + [f] == cap;
    out := EmitMore(points, out, at, cap[..i], [f], cap);
    idx := idx + 3;
  }

  /** The inner loop of one pass of the middle loop for ring j: cells
      0 .. slices - 2, leaving p3 and p4 on slice slices - 1. */
  method EmitBandCells(slices: int, j: int, points: seq<Vertex>, at: int)
    returns (out: seq<Vertex>, idx: int, p3: Point, p4: Point)
    requires slices >= 2 && 0 <= at && at + 6 * slices <= |points|
    ensures idx == at + 6 * (slices - 1)
    ensures p3 == Lat(slices - 1, j + 1) && p4 == Lat(slices - 1, j)
    ensures Emitted(points, out, at, Band(slices, j)[..2 * (slices - 1)])
  {
    var band := Band(slices, j);
    out := points;
    idx := at;
    var p1, p2 := Origin, Origin;
    p3, p4 := Origin, Origin;
    var i := 0;
    EmittedNothing(points, at);
    while i < slices - 1
      invariant 0 <= i <= slices - 1
      invariant idx == at + 6 * i
      invariant i > 0 ==> p3 == Lat(i, j + 1) && p4 == Lat(i, j)
      invariant Emitted(points, out, at, band[..2 * i])
    {
      p1 := Lat(i, j);
      p2 := Lat(i, j + 1);
      p3 := Lat(i + 1, j + 1);
      p4 := Lat(i + 1, j);
      BandPrefix(slices, j, i);
      out := EmitMore(points, out, at, band[..2 * i], CellFaces(p1, p2, p3, p4), band[..2 * (i + 1)]);
      idx, i := idx + 6, i + 1;
    }
  }

  /** One pass of the middle loop's body for ring j: slices - 1 cells from
      the inner loop, then the wrap cell built from the last p3, p4 and
      slice 0. */
  method EmitBand(slices: int, j: int, points: seq<Vertex>, at: int) returns (out: seq<Vertex>, idx: int)
    requires slices >= 2 && 0 <= at && at + 6 * slices <= |points|
    ensures idx == at + 6 * slices
    ensures Emitted(points, out, at, Band(slices, j))
  {
    var band := Band(slices, j);
    var cells, p3, p4;
    cells, idx, p3, p4 := EmitBandCells(slices, j, points, at);
    var p1, p2 := p4, p3;
    p3 := Lat(0, j + 1);
    p4 := Lat(0, j);
    BandPrefix(slices, j, slices - 1);
    assert band[..2 * (slices - 1) + 2] == band;
    out := EmitMore(points, cells, at, band[..2 * (slices - 1)], CellFaces(p1, p2, p3, p4), band);
    idx := idx + 6;
  }

  /** The middle loop `for (j = 1; j < last; j++)`. */
  method EmitBands(slices: int, last: int, points: seq<Vertex>, at: int) returns (out: seq<Vertex>, idx: int)
    requires slices >= 2 && 0 <= at && at + 3 * |Bands(slices, 1, last)| <= |points|
    ensures idx == at + 3 * |Bands(slices, 1, last)|
    ensures Emitted(points, out, at, Bands(slices, 1, last))
  {
    out := points;
    idx := at;
    var j := 1;
    EmittedNothing(points, at);
    while j < last
      invariant 1 <= j && (j <= last || j == 1)
      invariant idx == at + 3 * |Bands(slices, 1, j)|
      invariant Emitted(points, out, at, Bands(slices, 1, j))
    {
      BandsGrow(slices, j, last);
      var next, idx' := EmitBand(slices, j, out, idx);
      EmittedThen(points, out, next, at, Bands(slices, 1, j), Band(slices, j), Bands(slices, 1, j + 1));
      out, idx, j := next, idx', j + 1;
    }
    assert Bands(slices, 1, j) == Bands(slices, 1, last);
  }

  /** One more band still fits below `last`. */
  lemma {:induction false} BandsGrow(slices: int, j: int, last: int)
    requires slices >= 2 && 1 <= j < last
    ensures |Bands(slices, 1, j)| + 2 * slices == |Bands(slices, 1, j + 1)| <= |Bands(slices, 1, last)|
    decreases last - j
  {
    if j + 1 < last {
      BandsGrow(slices, j + 1, last);
    }
  }

  /** Bands lo .. hi - 1 hold 2 * slices triangles each. */
  lemma {:induction false} BandsLength(slices: int, lo: int, hi: int)
    requires slices >= 2
    ensures |Bands(slices, lo, hi)| == if hi <= lo then 0 else 2 * slices * (hi - lo)
    decreases hi - lo
  {
    if hi > lo {
      BandsLength(slices, lo, hi - 1);
      assert 2 * slices * (hi - 1 - lo) + 2 * slices == 2 * slices * (hi - lo);
    }
  }

  /** The last stack's loop: triangle i is (south, Lat(i + 1), Lat(i)),
      written with p1 = Lat(i + 1) and p2 = Lat(i); returns the final p1. */
  method EmitBottomLoop(slices: int, stacks: int, points: seq<Vertex>, at: int)
    returns (out: seq<Vertex>, idx: int, p1: Point)
    requires slices >= 2 && 0 <= at && at + 3 * slices <= |points|
    ensures idx == at + 3 * (slices - 1)
    ensures p1 == Lat(slices - 1, stacks - 1)
    ensures Emitted(points, out, at, BottomCap(slices, stacks)[..slices - 1])
  {
    var cap := BottomCap(slices, stacks);
    out := points;
    idx := at;
    p1 := Origin;
    var p2 := Origin;
    var i := 0;
    EmittedNothing(points, at);
    while i < slices - 1
      invariant 0 <= i <= slices - 1
      invariant idx == at + 3 * i
      invariant i > 0 ==> p1 == Lat(i, stacks - 1)
      invariant Emitted(points, out, at, cap[..i])
    {
      p2 := Lat(i, stacks - 1);
      p1 := Lat(i + 1, stacks - 1);
      var f := Face(South, p1, p2, FlatShaded);
      assert f == cap[i];
      assert cap[..i] + [f] == cap[..i + 1];
      out := EmitMore(points, out, at, cap[..i], [f], cap[..i + 1]);
      idx, i := idx + 3, i + 1;
    }
  }

  /** The last stack as written: `p2 = p1; p2 = evalSphere(0, ...)` leaves
      p1 on the last slice, so the closing triangle is
      (south, Lat(slices - 1), Lat(0)). */
  method EmitBottomCapAsWritten(slices: int, stacks: int, points: seq<Vertex>, at: int)
    returns (out: seq<Vertex>, idx: int)
    requires slices >= 2 && 0 <= at && at + 3 * slices <= |points|
    ensures idx == at + 3 * slices
    ensures Emitted(points, out, at, BottomCapAsWritten(slices, stacks))
  {
    var loopOut, loopIdx, p1 := EmitBottomLoop(slices, stacks, points, at);
    var p2 := p1;
    p2 := Lat(0, stacks - 1);
    var f := Face(South, p1, p2, FlatShaded);
    out := EmitMore(points, loopOut, at, BottomCap(slices, stacks)[..slices - 1], [f], BottomCapAsWritten(slices, stacks));
    idx := loopIdx + 3;
  }

  /** The last stack as intended: `p2 = p1; p1 = evalSphere(0, ...)`, so the
      closing triangle is (south, Lat(0), Lat(slices - 1)), the loop's
      pattern for i = slices - 1. */
  method EmitBottomCap(slices: int, stacks: int, points: seq<Vertex>, at: int)
    returns (out: seq<Vertex>, idx: int)
    requires slices >= 2 && 0 <= at && at + 3 * slices <= |points|
    ensures idx == at + 3 * slices
    ensures Emitted(points, out, at, BottomCap(slices, stacks))
  {
    var cap := BottomCap(slices, stacks);
    var loopOut, loopIdx, p1 := EmitBottomLoop(slices, stacks, points, at);
    var p2 := p1;
    p1 := Lat(0, stacks - 1);
    var f := Face(South, p1, p2, FlatShaded);
    assert f == cap[slices - 1];
    assert cap[..slices - 1] + [f] == cap;
    out := EmitMore(points, loopOut, at, cap[..slices - 1], [f], cap);
    idx := loopIdx + 3;
  }

  /** The first stack and the middle loop up to `last`, common to both
      generators. */
  method EmitUpper(slices: int, last: int, points: seq<Vertex>) returns (out: seq<Vertex>, idx: int)
    requires slices >= 2 && 3 * (slices + |Bands(slices, 1, last)|) <= |points|
    ensures idx == 3 * (slices + |Bands(slices, 1, last)|)
    ensures Emitted(points, out, 0, TopCap(slices) + Bands(slices, 1, last))
  {
    var top, i1 := EmitTopCap(slices, points, 0);
    var mid, i2 := EmitBands(slices, last, top, i1);
    EmittedChain(points, top, mid, 0, TopCap(slices), Bands(slices, 1, last));
    out, idx := mid, i2;
  }

  /** sphere(slices, stacks) as written. */
  method GenerateSphereAsWritten(slices: int, stacks: int, points: seq<Vertex>)
    returns (out: seq<Vertex>, idx: int)
    requires slices >= 2 && 3 * |SphereFacesAsWritten(slices, stacks)| <= |points|
    ensures idx == 3 * |SphereFacesAsWritten(slices, stacks)|
    ensures Emitted(points, out, 0, SphereFacesAsWritten(slices, stacks))
  {
    var upper := TopCap(slices) + Bands(slices, 1, stacks - 2);
    assert |SphereFacesAsWritten(slices, stacks)| == |upper| + slices;
    var mid, i2 := EmitUpper(slices, stacks - 2, points);
    var bot, i3 := EmitBottomCapAsWritten(slices, stacks, mid, i2);
    EmittedThen(points, mid, bot, 0, upper, BottomCapAsWritten(slices, stacks), SphereFacesAsWritten(slices, stacks));
    out, idx := bot, i3;
  }

  /** sphere(slices, stacks) with both corrections. */
  method GenerateSphere(slices: int, stacks: int, points: seq<Vertex>)
    returns (out: seq<Vertex>, idx: int)
    requires slices >= 2 && 3 * |SphereFaces(slices, stacks)| <= |points|
    ensures idx == 3 * |SphereFaces(slices, stacks)|
    ensures Emitted(points, out, 0, SphereFaces(slices, stacks))
  {
    var upper := TopCap(slices) + Bands(slices, 1, stacks - 1);
    assert |SphereFaces(slices, stacks)| == |upper| + slices;
    var mid, i2 := EmitUpper(slices, stacks - 1, points);
    var bot, i3 := EmitBottomCap(slices, stacks, mid, i2);
    EmittedThen(points, mid, bot, 0, upper, BottomCap(slices, stacks), SphereFaces(slices, stacks));
    out, idx := bot, i3;
  }

  // ---------------------------------------------------------------------
  // Properties of the two face lists.

  /** Triangle q of band j sits right after bands lo .. j - 1 in bands
      lo .. hi - 1. */
  lemma {:induction false} BandsIndex(slices: int, lo: int, hi: int, j: int, q: int)
    requires slices >= 2 && lo <= j < hi && 0 <= q < 2 * slices
    ensures |Bands(slices, lo, j)| + q < |Bands(slices, lo, hi)|
    ensures Bands(slices, lo, hi)[|Bands(slices, lo, j)| + q] == Band(slices, j)[q]
    decreases hi - lo
  {
    if j < hi - 1 {
      BandsIndex(slices, lo, hi - 1, j, q);
    }
  }

  /** Every ring a face touches lies in lo .. hi. */
  predicate RingsWithin(f: Face, lo: int, hi: int) {
    && (f.a.Lat? ==> lo <= f.a.j <= hi)
    && (f.b.Lat? ==> lo <= f.b.j <= hi)
    && (f.c.Lat? ==> lo <= f.c.j <= hi)
  }

  /** Band j joins ring j to ring j + 1 and touches no other ring. */
  lemma BandRings(slices: int, j: int, q: int)
    requires slices >= 2 && 0 <= q < 2 * slices
    ensures RingsWithin(Band(slices, j)[q], j, j + 1)
    ensures Band(slices, j)[q].OnRing(j) && Band(slices, j)[q].OnRing(j + 1)
  {
    assert Band(slices, j)[q] == BandTri(slices, j, q / 2, q % 2);
  }

  /** Bands lo .. hi - 1 touch only rings lo .. hi. */
  lemma {:induction false} BandsRings(slices: int, lo: int, hi: int, t: int)
    requires slices >= 2 && 0 <= t < |Bands(slices, lo, hi)|
    ensures RingsWithin(Bands(slices, lo, hi)[t], lo, hi)
    decreases hi - lo
  {
    var init := Bands(slices, lo, hi - 1);
    if t < |init| {
      BandsRings(slices, lo, hi - 1, t);
    } else {
      BandsLength(slices, lo, hi - 1);
      BandRings(slices, hi - 1, t - |init|);
    }
  }

  /** sphere() as written writes 6 * slices * (stacks - 2) slots, one band
      of 6 * slices short of the size the arrays are declared with,
      3 * (2 * slices + 2 * slices * (stacks - 2)). */
  lemma AsWrittenCount(slices: int, stacks: int)
    requires slices >= 2 && stacks >= 3
    ensures 3 * |SphereFacesAsWritten(slices, stacks)| == 6 * slices * (stacks - 2)
    ensures 3 * |SphereFacesAsWritten(slices, stacks)| + 6 * slices
         == 3 * (2 * slices + 2 * slices * (stacks - 2))
  {
    BandsLength(slices, 1, stacks - 2);
  }

  /** The corrected generator writes exactly the declared size. */
  lemma CorrectedCount(slices: int, stacks: int)
    requires slices >= 2 && stacks >= 2
    ensures 3 * |SphereFaces(slices, stacks)| == 3 * (2 * slices + 2 * slices * (stacks - 2))
  {
    BandsLength(slices, 1, stacks - 1);
  }

  /** For the program's sphere(20, 20): 2160 slots written, 2280 declared
      and drawn. */
  lemma ProgramSphereCounts()
    ensures SphereNumVertices == 2280
    ensures 3 * |SphereFacesAsWritten(SphereSlices, SphereStacks)| == 2160
    ensures 3 * |SphereFaces(SphereSlices, SphereStacks)| == SphereNumVertices
  {
    AsWrittenCount(SphereSlices, SphereStacks);
    CorrectedCount(SphereSlices, SphereStacks);
  }

  /** In arrays of the declared size, the last 6 * slices slots keep the
      contents they had before sphere() ran: zero points and normals for
      the program's globals. */
  lemma AsWrittenLeavesTailUnwritten(points: seq<Vertex>, out: seq<Vertex>, slices: int, stacks: int)
    requires slices >= 2 && stacks >= 3
    requires |points| == 3 * (2 * slices + 2 * slices * (stacks - 2))
    requires Emitted(points, out, 0, SphereFacesAsWritten(slices, stacks))
    ensures forall k :: |points| - 6 * slices <= k < |points| ==> out[k] == points[k]
    ensures points == Blanks(|points|) ==> forall k :: |points| - 6 * slices <= k < |points| ==> out[k] == Blank
  {
    AsWrittenCount(slices, stacks);
    EmittedLeavesRest(points, out, 0, SphereFacesAsWritten(slices, stacks));
  }

  /** As written, no triangle joins ring stacks - 2 to ring stacks - 1:
      the sphere has an open band above the bottom cap. */
  lemma AsWrittenLeavesBandOpen(slices: int, stacks: int, t: int)
    requires slices >= 2 && 0 <= t < |SphereFacesAsWritten(slices, stacks)|
    ensures !(SphereFacesAsWritten(slices, stacks)[t].OnRing(stacks - 2)
              && SphereFacesAsWritten(slices, stacks)[t].OnRing(stacks - 1))
  {
    var mid := Bands(slices, 1, stacks - 2);
    var fs := SphereFacesAsWritten(slices, stacks);
    if t < slices {
      assert fs[t] == TopTri(slices, t);
    } else if t < slices + |mid| {
      assert fs[t] == mid[t - slices];
      BandsRings(slices, 1, stacks - 2, t - slices);
    } else {
      var u := t - slices - |mid|;
      assert fs[t] == BottomCapAsWritten(slices, stacks)[u];
      if u < slices - 1 {
        assert fs[t] == BottomTri(slices, stacks, u);
      }
    }
  }

  /** Corrected, every band between consecutive rings 1 .. stacks - 1 has
      triangles: for each j in 1 .. stacks - 2 some triangle joins ring j
      to ring j + 1. */
  lemma CorrectedClosesEveryBand(slices: int, stacks: int, j: int)
    requires slices >= 2 && 1 <= j <= stacks - 2
    ensures exists t :: 0 <= t < |SphereFaces(slices, stacks)|
              && SphereFaces(slices, stacks)[t].OnRing(j) && SphereFaces(slices, stacks)[t].OnRing(j + 1)
  {
    var t := slices + |Bands(slices, 1, j)|;
    BandsIndex(slices, 1, stacks - 1, j, 0);
    BandRings(slices, j, 0);
    assert SphereFaces(slices, stacks)[t] == Band(slices, j)[0];
  }

  /** The correction is local: the top cap and bands 1 .. stacks - 3 are
      kept, band stacks - 2 is added, and the bottom cap differs only in
      its closing triangle, whose two ring corners are swapped. */
  lemma CorrectionIsLocal(slices: int, stacks: int)
    requires slices >= 2 && stacks >= 3
    ensures SphereFaces(slices, stacks)
         == TopCap(slices) + Bands(slices, 1, stacks - 2) + Band(slices, stacks - 2) + BottomCap(slices, stacks)
    ensures BottomCapAsWritten(slices, stacks)[..slices - 1] == BottomCap(slices, stacks)[..slices - 1]
    ensures var w := BottomCapAsWritten(slices, stacks)[slices - 1];
            var c := BottomCap(slices, stacks)[slices - 1];
            w.a == c.a == South && w.b == c.c && w.c == c.b && w.b != w.c
  {
    assert Bands(slices, 1, stacks - 1) == Bands(slices, 1, stacks - 2) + Band(slices, stacks - 2);
    assert BottomCapAsWritten(slices, stacks)[..slices - 1] == BottomCap(slices, stacks)[..slices - 1];
  }

  /** A bottom-cap triangle (south, Lat(b, r), Lat(c, r)) whose ring
      corners run backwards round ring r: b is the slice after c. */
  predicate RunsBackward(f: Face, slices: int, r: int) {
    f.a == South && f.b.Lat? && f.c.Lat? && f.b.j == r && f.c.j == r && f.b.i == Next(f.c.i, slices)
  }

  /** ... and forwards: c is the slice after b. */
  predicate RunsForward(f: Face, slices: int, r: int) {
    f.a == South && f.b.Lat? && f.c.Lat? && f.b.j == r && f.c.j == r && f.c.i == Next(f.b.i, slices)
  }

  /** As written, the bottom cap's loop triangles run backwards round the
      last ring but the closing one runs forwards; with three or more
      slices that is the opposite winding, so its flat normal, taken in
      emission order, is reversed. */
  lemma AsWrittenBottomWinding(slices: int, stacks: int)
    requires slices >= 2
    ensures forall t :: 0 <= t < slices - 1 ==> RunsBackward(BottomCapAsWritten(slices, stacks)[t], slices, stacks - 1)
    ensures RunsForward(BottomCapAsWritten(slices, stacks)[slices - 1], slices, stacks - 1)
    ensures slices >= 3 <==> !RunsBackward(BottomCapAsWritten(slices, stacks)[slices - 1], slices, stacks - 1)
  {
    var cap := BottomCapAsWritten(slices, stacks);
    forall t | 0 <= t < slices - 1
      ensures RunsBackward(cap[t], slices, stacks - 1)
    {
      assert cap[t] == BottomTri(slices, stacks, t);
    }
  }

  /** Corrected, every bottom-cap triangle runs backwards round the last
      ring, the closing one included. */
  lemma CorrectedBottomWinding(slices: int, stacks: int)
    requires slices >= 2
    ensures forall t :: 0 <= t < slices ==> RunsBackward(BottomCap(slices, stacks)[t], slices, stacks - 1)
  {
  }

  /** Top-cap triangle t is (north, Lat(t, 1), Lat((t + 1) mod slices, 1));
      the fan closes back to Lat(0, 1). */
  lemma TopCapPattern(slices: int, t: int)
    requires slices >= 2 && 0 <= t < slices
    ensures TopCap(slices)[t] == Face(North, Lat(t, 1), Lat((t + 1) % slices, 1), Smooth)
    ensures TopCap(slices)[slices - 1].c == Lat(0, 1)
  {
    NextIsSuccessorModulo(t, slices);
  }

  /** Cell i of band j, the wrap cell i = slices - 1 included, is
      (Lat(i, j), Lat(i, j + 1), Lat(i', j + 1)) and
      (Lat(i, j), Lat(i', j + 1), Lat(i', j)) with i' = (i + 1) mod slices. */
  lemma BandPattern(slices: int, j: int, i: int)
    requires slices >= 2 && 0 <= i < slices
    ensures var i' := (i + 1) % slices;
            Band(slices, j)[2 * i] == Face(Lat(i, j), Lat(i, j + 1), Lat(i', j + 1), Smooth)
            && Band(slices, j)[2 * i + 1] == Face(Lat(i, j), Lat(i', j + 1), Lat(i', j), Smooth)
  {
    NextIsSuccessorModulo(i, slices);
    BandCell(slices, j, i);
    assert Band(slices, j)[2 * i] == Band(slices, j)[2 * i..2 * i + 2][0];
    assert Band(slices, j)[2 * i + 1] == Band(slices, j)[2 * i..2 * i + 2][1];
  }

  /** Which normal policy each region uses: radial normals for the top cap
      and the bands, one flat normal per triangle for the bottom cap. */
  lemma AsWrittenNormalPolicies(points: seq<Vertex>, out: seq<Vertex>, slices: int, stacks: int)
    requires slices >= 2
    requires Emitted(points, out, 0, SphereFacesAsWritten(slices, stacks))
    ensures var smooth := slices + |Bands(slices, 1, stacks - 2)|;
            && (forall k :: 0 <= k < 3 * smooth ==> RadialAt(out, k))
            && (forall t :: smooth <= t < smooth + slices ==> FlatAt(out, 0, t))
  {
    var fs := SphereFacesAsWritten(slices, stacks);
    var mid := Bands(slices, 1, stacks - 2);
    var smooth := slices + |mid|;
    forall t | 0 <= t < smooth
      ensures fs[t].shading == Smooth
    {
      if t < slices {
        assert fs[t] == TopTri(slices, t);
      } else {
        assert fs[t] == mid[t - slices];
        BandsSmooth(slices, 1, stacks - 2, t - slices);
      }
    }
    forall t | smooth <= t < smooth + slices
      ensures fs[t].shading == FlatShaded
    {
      assert fs[t] == BottomCapAsWritten(slices, stacks)[t - smooth];
    }
    EmittedRadial(points, out, 0, fs, 0, smooth);
    EmittedFlat(points, out, 0, fs, smooth, smooth + slices);
  }

  /** Every band triangle is radially shaded. */
  lemma {:induction false} BandsSmooth(slices: int, lo: int, hi: int, t: int)
    requires slices >= 2 && 0 <= t < |Bands(slices, lo, hi)|
    ensures Bands(slices, lo, hi)[t].shading == Smooth
    decreases hi - lo
  {
    var init := Bands(slices, lo, hi - 1);
    if t < |init| {
      BandsSmooth(slices, lo, hi - 1, t);
    } else {
      var q := t - |init|;
      BandsLength(slices, lo, hi - 1);
      assert Band(slices, hi - 1)[q] == BandTri(slices, hi - 1, q / 2, q % 2);
    }
  }
}
