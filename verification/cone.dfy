/** The unit cone: a fan of triangles from the apex (0,0,1) to a circle of
    `slices` points on the base, each triangle flat-shaded with the normal
    of its own corners. */
module Cone {
  import opened Mesh

  const ConeSlices := 20
  const ConeNumVertices := 3 * ConeSlices

  /** The side triangle (apex, p1, p2) with the flat normal
      normalize(cross(p1 - apex, p2 - p1)). */
  function ConeSide(p1: Point, p2: Point): Face {
    Face(Apex, p1, p2, FlatShaded)
  }

  /** The closed fan: triangle t joins ring points t and t + 1, the last
      one wrapping back to ring point 0.  With fewer than two slices the
      loop never runs and the closing triangle uses the never-assigned
      local p2, which is the zero point. */
  function ConeFaces(slices: int): (r: seq<Face>)
    ensures |r| == if slices >= 2 then slices else 1
  {
    if slices >= 2 then seq(slices, t => ConeSide(Ring(t), Ring(Next(t, slices))))
    else [ConeSide(Origin, Ring(0))]
  }

  /** The number of slots cone(slices) writes. */
  function ConeWritten(slices: int): (n: int)
    ensures n == 3 * |ConeFaces(slices)|
  {
    if slices >= 2 then 3 * slices else 3
  }

  /** cone(slices): slices - 1 loop triangles (apex, ring i, ring i + 1),
      then the closing triangle from the last p2 back to ring point 0.  The
      index starts at 0 on every call. */
  method GenerateCone(slices: int, points: seq<Vertex>) returns (out: seq<Vertex>, idx: int)
    requires ConeWritten(slices) <= |points|
    ensures idx == ConeWritten(slices)
    ensures Emitted(points, out, 0, ConeFaces(slices))
  {
    var fan := ConeFaces(slices);
    out := points;
    idx := 0;
    var p1, p2 := Origin, Origin;
    var i := 0;
    EmittedNothing(points, 0);
    while i < slices - 1
      invariant 0 <= i <= |fan| - 1
      invariant idx == 3 * i
      invariant i > 0 ==> p2 == Ring(i)
      invariant i == 0 ==> p2 == Origin
      invariant Emitted(points, out, 0, fan[..i])
    {
      p1 := Ring(i);
      p2 := Ring(i + 1);
      var f := ConeSide(p1, p2);
      assert fan[..i] + [f] == fan[..i + 1];
      out := EmitMore(points, out, 0, fan[..i], [f], fan[..i + 1]);
      idx := idx + 3;
      i := i + 1;
    }
    p1 := p2;
    p2 := Ring(0);
    var f := ConeSide(p1, p2);
    assert fan[..i] + [f] == fan;
    out := EmitMore(points, out, 0, fan[..i], [f], fan);
    idx := idx + 3;
  }

  /** cone(coneSlices) fills the declared arrays exactly: 60 slots. */
  lemma ConeFillsBuffer()
    ensures ConeWritten(ConeSlices) == ConeNumVertices == 60
  {
  }

  /** Every triangle has the apex first and two ring points after it; the
      fan's neighbours share an edge, and the last triangle closes the fan
      back onto ring point 0, the second corner of the first triangle. */
  lemma ConeFanIsClosed(slices: int)
    requires slices >= 2
    ensures forall t :: 0 <= t < slices ==>
              ConeFaces(slices)[t].a == Apex && ConeFaces(slices)[t].b == Ring(t)
    ensures forall t :: 0 <= t < slices ==>
              ConeFaces(slices)[t].c == ConeFaces(slices)[(t + 1) % slices].b
    ensures ConeFaces(slices)[slices - 1].c == Ring(0) == ConeFaces(slices)[0].b
  {
    forall t | 0 <= t < slices
      ensures ConeFaces(slices)[t].c == ConeFaces(slices)[(t + 1) % slices].b
    {
      NextIsSuccessorModulo(t, slices);
    }
  }

  /** Each ring point k is a corner of exactly two triangles: the one that
      starts at it and the one before it, cyclically. */
  lemma ConeRingPointInTwoTriangles(slices: int, k: int, t: int)
    requires slices >= 2 && 0 <= k < slices && 0 <= t < slices
    ensures ConeFaces(slices)[t].Touches(Ring(k)) <==> (t == k || (t + 1) % slices == k)
  {
    NextIsSuccessorModulo(t, slices);
  }

  /** The three slots of every cone triangle carry one shared flat normal,
      the normalized cross product of that triangle's own corners. */
  lemma ConeNormalsAreFlat(points: seq<Vertex>, out: seq<Vertex>, slices: int)
    requires Emitted(points, out, 0, ConeFaces(slices))
    ensures forall t :: 0 <= t < |ConeFaces(slices)| ==> FlatAt(out, 0, t)
  {
    EmittedFlat(points, out, 0, ConeFaces(slices), 0, |ConeFaces(slices)|);
  }
}
