/** The unit cube: eight corners, six faces given as corner quadruples,
    each face split into two triangles that share one exactly computed face
    normal. */
module Cube {
  import opened Geometry
  import opened Mesh

  const CubeNumVertices := 36

  /** The `vertices` table scaled by 2: every coordinate +-1/2 becomes +-1. */
  const DoubledCorners: seq<IVec3> := [
    IVec3(-1, -1, 1),
    IVec3(-1, 1, 1),
    IVec3(1, 1, 1),
    IVec3(1, -1, 1),
    IVec3(-1, -1, -1),
    IVec3(-1, 1, -1),
    IVec3(1, 1, -1),
    IVec3(1, -1, -1)
  ]

  /** The corner indices passed to one call of quad(a, b, c, d). */
  datatype FaceQuad = FaceQuad(a: int, b: int, c: int, d: int) {
    predicate Valid() {
      0 <= a < 8 && 0 <= b < 8 && 0 <= c < 8 && 0 <= d < 8
    }
  }

  /** The six calls of cube(), in order. */
  const CubeFaces: seq<FaceQuad> := [
    FaceQuad(1, 0, 3, 2),
    FaceQuad(2, 3, 7, 6),
    FaceQuad(3, 0, 4, 7),
    FaceQuad(6, 5, 1, 2),
    FaceQuad(4, 5, 6, 7),
    FaceQuad(5, 4, 0, 1)
  ]

  predicate AllValid(fs: seq<FaceQuad>) {
    forall f :: 0 <= f < |fs| ==> fs[f].Valid()
  }

  /** cross(v[b] - v[a], v[c] - v[b]) in doubled coordinates: four times
      the cross product of the real edges. */
  function DoubledCross(q: FaceQuad): IVec3
    requires q.Valid()
  {
    Cross(Sub(DoubledCorners[q.b], DoubledCorners[q.a]), Sub(DoubledCorners[q.c], DoubledCorners[q.b]))
  }

  /** The cross product quad() computes, in real units.  quad() stores its
      normalization; for the six cube faces it is already an axis unit
      vector (FaceNormalFacts), so the two agree there. */
  function FaceNormal(q: FaceQuad): IVec3
    requires q.Valid()
  {
    Quarter(DoubledCross(q))
  }

  /** The two triangles quad(a, b, c, d) emits: (a, b, c) then (a, c, d),
      both carrying the normal computed from the first. */
  function QuadFaces(q: FaceQuad): (r: seq<Face>)
    requires q.Valid()
    ensures |r| == 2
  {
    var n := Fixed(FaceNormal(q));
    [Face(Corner(q.a), Corner(q.b), Corner(q.c), n), Face(Corner(q.a), Corner(q.c), Corner(q.d), n)]
  }

  /** The triangles of a sequence of quad() calls, in call order. */
  function QuadTriangles(fs: seq<FaceQuad>): (r: seq<Face>)
    requires AllValid(fs)
    ensures |r| == 2 * |fs|
  {
    if |fs| == 0 then [] else QuadFaces(fs[0]) + QuadTriangles(fs[1..])
  }

  /** The cube's twelve triangles: triangle t is triangle t % 2 of quad
      call t / 2. */
  function CubeTriangles(): (r: seq<Face>)
    ensures |r| == 12
  {
    seq(12, t requires 0 <= t < 12 => QuadFaces(CubeFaces[t / 2])[t % 2])
  }

  /** The global `cubeIdx` together with the cube's slots. */
  datatype CubeState = CubeState(idx: int, buf: seq<Vertex>)

  /** quad(a, b, c, d): six slot writes from cubeIdx on, corners
      a, b, c, a, c, d, each with the same normal. */
  function QuadStep(s: CubeState, q: FaceQuad): (r: CubeState)
    requires q.Valid()
    requires 0 <= s.idx && s.idx + 6 <= |s.buf|
    ensures r.idx == s.idx + 6
    ensures Emitted(s.buf, r.buf, s.idx, QuadFaces(q))
  {
    var n := Exact(FaceNormal(q));
    var b1 := Write3(s.buf, s.idx, Vertex(Corner(q.a), n), Vertex(Corner(q.b), n), Vertex(Corner(q.c), n));
    var b2 := Write3(b1, s.idx + 3, Vertex(Corner(q.a), n), Vertex(Corner(q.c), n), Vertex(Corner(q.d), n));
    var fs := QuadFaces(q);
    EmittedOneFace(s.buf, s.idx, fs[0]);
    EmittedOneFace(b1, s.idx + 3, fs[1]);
    EmittedChain(s.buf, b1, b2, s.idx, [fs[0]], [fs[1]]);
    assert [fs[0]] + [fs[1]] == fs;
    CubeState(s.idx + 6, b2)
  }

  /** The quad() calls for `fs`, in order, starting from state `s`. */
  function Quads(s: CubeState, fs: seq<FaceQuad>): (r: CubeState)
    requires AllValid(fs)
    requires 0 <= s.idx && s.idx + 6 * |fs| <= |s.buf|
    ensures r.idx == s.idx + 6 * |fs|
    ensures Emitted(s.buf, r.buf, s.idx, QuadTriangles(fs))
    decreases |fs|
  {
    if |fs| == 0 then
      EmittedNothing(s.buf, s.idx);
      s
    else
      var s1 := QuadStep(s, fs[0]);
      var r := Quads(s1, fs[1..]);
      EmittedChain(s.buf, s1.buf, r.buf, s.idx, QuadFaces(fs[0]), QuadTriangles(fs[1..]));
      r
  }

  /** cube(): the six quad() calls.  cubeIdx is a global that is never reset,
      so the writes stay inside the arrays only while cubeIdx + 36 fits. */
  function CubeGen(s: CubeState): (r: CubeState)
    requires 0 <= s.idx && s.idx + CubeNumVertices <= |s.buf|
    ensures r.idx == s.idx + CubeNumVertices
    ensures Emitted(s.buf, r.buf, s.idx, CubeTriangles())
  {
    CubeTrianglesInCallOrder();
    Quads(s, CubeFaces)
  }

  /** The program's starting state: cubeIdx == 0 and 36 zero slots. */
  const CubeInit := CubeState(0, Blanks(CubeNumVertices))

  /** Triangle 2f + h of a quad sequence is triangle h of quad f. */
  lemma {:induction false} QuadTrianglesIndex(fs: seq<FaceQuad>, f: int, h: int)
    requires AllValid(fs)
    requires 0 <= f < |fs| && 0 <= h < 2
    ensures QuadTriangles(fs)[2 * f + h] == QuadFaces(fs[f])[h]
    decreases |fs|
  {
    if f > 0 {
      QuadTrianglesIndex(fs[1..], f - 1, h);
    }
  }

  /** Starting from cubeIdx == 0, cube() writes exactly slots 0..35 with the
      twelve triangles, ends with cubeIdx == 36, and a second call would
      write past the arrays. */
  lemma CubeFillsBuffer()
    ensures CubeGen(CubeInit).idx == CubeNumVertices == |CubeGen(CubeInit).buf|
    ensures CubeGen(CubeInit).buf == Vertices(CubeTriangles())
    ensures !(CubeGen(CubeInit).idx + CubeNumVertices <= |CubeGen(CubeInit).buf|)
  {
    var r := CubeGen(CubeInit);
    assert r.buf == r.buf[0..36];
  }

  /** The six quad() calls, in order, emit exactly the cube's table of
      triangles. */
  lemma CubeTrianglesInCallOrder()
    ensures AllValid(CubeFaces)
    ensures QuadTriangles(CubeFaces) == CubeTriangles()
  {
    var fs := QuadTriangles(CubeFaces);
    forall t | 0 <= t < 12
      ensures fs[t] == CubeTriangles()[t]
    {
      QuadTrianglesIndex(CubeFaces, t / 2, t % 2);
    }
  }

  /** Whatever cubeIdx it starts from, cube() puts corner m of triangle t in
      slot cubeIdx + 3t + m. */
  lemma CubeSlot(s: CubeState, t: int, m: int)
    requires 0 <= s.idx && s.idx + CubeNumVertices <= |s.buf|
    requires 0 <= t < 12 && 0 <= m < 3
    ensures CubeGen(s).buf[s.idx + 3 * t + m] == CubeTriangles()[t].VertexAt(m)
  {
    EmittedSlot(s.buf, CubeGen(s).buf, s.idx, CubeTriangles(), t, m);
  }

  /** The first slot written is corner 1, (-1/2, 1/2, 1/2), with normal +z. */
  lemma CubeFirstSlot()
    ensures CubeGen(CubeInit).buf[0] == Vertex(Corner(1), Exact(IVec3(0, 0, 1)))
  {
    CubeSlot(CubeInit, 0, 0);
    FaceNormalFacts(0);
  }

  /** The outward unit normal of each face, in the order of the quad()
      calls: the side of the cube (+z, +x, -y, +y, -z, -x) on which the
      face's four corners lie. */
  const OutwardNormals: seq<IVec3> := [
    IVec3(0, 0, 1),
    IVec3(1, 0, 0),
    IVec3(0, -1, 0),
    IVec3(0, 1, 0),
    IVec3(0, 0, -1),
    IVec3(-1, 0, 0)
  ]

  /** The doubled cross product of each face is exactly 4 times its outward
      unit normal; so the real cross product is that unit vector and
      normalize() leaves it unchanged. */
  lemma FaceNormalFacts(f: int)
    requires 0 <= f < 6
    ensures DoubledCross(CubeFaces[f]) == Scale(4, OutwardNormals[f])
    ensures FaceNormal(CubeFaces[f]) == OutwardNormals[f]
  {
    var q := CubeFaces[f];
    var n := OutwardNormals[f];
    if f == 0 {
      assert q == FaceQuad(1, 0, 3, 2) && n == IVec3(0, 0, 1);
      assert DoubledCross(q) == Scale(4, n);
      assert FaceNormal(q) == n;
    } else if f == 1 {
      assert q == FaceQuad(2, 3, 7, 6) && n == IVec3(1, 0, 0);
      assert DoubledCross(q) == Scale(4, n);
      assert FaceNormal(q) == n;
    } else if f == 2 {
      assert q == FaceQuad(3, 0, 4, 7) && n == IVec3(0, -1, 0);
      assert DoubledCross(q) == Scale(4, n);
      assert FaceNormal(q) == n;
    } else if f == 3 {
      assert q == FaceQuad(6, 5, 1, 2) && n == IVec3(0, 1, 0);
      assert DoubledCross(q) == Scale(4, n);
      assert FaceNormal(q) == n;
    } else if f == 4 {
      assert q == FaceQuad(4, 5, 6, 7) && n == IVec3(0, 0, -1);
      assert DoubledCross(q) == Scale(4, n);
      assert FaceNormal(q) == n;
    } else {
      assert q == FaceQuad(5, 4, 0, 1) && n == IVec3(-1, 0, 0);
      assert DoubledCross(q) == Scale(4, n);
      assert FaceNormal(q) == n;
    }
  }

  /** Corner k lies in the plane n . p == 1/2 (doubled: == 1). */
  predicate OnPlane(n: IVec3, k: int)
    requires 0 <= k < 8
  {
    Dot(n, DoubledCorners[k]) == 1
  }

  /** All four corners of each face lie in the plane of its outward normal
      at distance 1/2 from the centre (where the dot product is 0): the
      table's normal is the one pointing away from the cube. */
  lemma FacePlane(f: int)
    requires 0 <= f < 6
    ensures var q := CubeFaces[f];
            OnPlane(OutwardNormals[f], q.a) && OnPlane(OutwardNormals[f], q.b) &&
            OnPlane(OutwardNormals[f], q.c) && OnPlane(OutwardNormals[f], q.d)
  {
  }

  /** Four times the cross product of the second triangle (a, c, d) quad()
      emits: cross(v[c] - v[a], v[d] - v[c]) in doubled coordinates. */
  function SecondDoubledCross(q: FaceQuad): IVec3
    requires q.Valid()
  {
    Cross(Sub(DoubledCorners[q.c], DoubledCorners[q.a]), Sub(DoubledCorners[q.d], DoubledCorners[q.c]))
  }

  /** The second triangle (a, c, d) turns the same way as the first:
      cross(c - a, d - c) is also 4 times the outward normal. */
  lemma FaceSecondTriangle(f: int)
    requires 0 <= f < 6
    ensures SecondDoubledCross(CubeFaces[f]) == Scale(4, OutwardNormals[f])
  {
    var q := CubeFaces[f];
    var n := OutwardNormals[f];
    if f == 0 {
      assert q == FaceQuad(1, 0, 3, 2) && n == IVec3(0, 0, 1);
      assert SecondDoubledCross(q) == Scale(4, n);
    } else if f == 1 {
      assert q == FaceQuad(2, 3, 7, 6) && n == IVec3(1, 0, 0);
      assert SecondDoubledCross(q) == Scale(4, n);
    } else if f == 2 {
      assert q == FaceQuad(3, 0, 4, 7) && n == IVec3(0, -1, 0);
      assert SecondDoubledCross(q) == Scale(4, n);
    } else if f == 3 {
      assert q == FaceQuad(6, 5, 1, 2) && n == IVec3(0, 1, 0);
      assert SecondDoubledCross(q) == Scale(4, n);
    } else if f == 4 {
      assert q == FaceQuad(4, 5, 6, 7) && n == IVec3(0, 0, -1);
      assert SecondDoubledCross(q) == Scale(4, n);
    } else {
      assert q == FaceQuad(5, 4, 0, 1) && n == IVec3(-1, 0, 0);
      assert SecondDoubledCross(q) == Scale(4, n);
    }
  }

  /** The normal quad() computes for each face is the face's outward
      normal. */
  lemma CubeNormalsAreOutward()
    ensures forall f :: 0 <= f < 6 ==> FaceNormal(CubeFaces[f]) == OutwardNormals[f]
  {
    forall f | 0 <= f < 6
      ensures FaceNormal(CubeFaces[f]) == OutwardNormals[f]
    {
      FaceNormalFacts(f);
    }
  }

  /** The six outward normals are exactly {+-x, +-y, +-z}, each once, and
      each has unit length. */
  lemma OutwardNormalsAreAxisUnits()
    ensures (set f | 0 <= f < 6 :: OutwardNormals[f]) == AxisUnits
    ensures forall f :: 0 <= f < 6 ==> Dot(OutwardNormals[f], OutwardNormals[f]) == 1
    ensures forall f, g :: 0 <= f < g < 6 ==> OutwardNormals[f] != OutwardNormals[g]
  {
    var normals := set f | 0 <= f < 6 :: OutwardNormals[f];
    assert OutwardNormals[0] in normals && OutwardNormals[1] in normals && OutwardNormals[2] in normals;
    assert OutwardNormals[3] in normals && OutwardNormals[4] in normals && OutwardNormals[5] in normals;
  }

  /** Triangle (p0, p1, p2) is made of cube corners, carries the normal n,
      lies in the plane of n, and has cross(p1 - p0, p2 - p1) equal to n
      (4 times it in doubled units): counter-clockwise seen from the side n
      points to. */
  predicate OutwardCounterClockwise(tri: Face, n: IVec3) {
    && tri.a.Corner? && tri.b.Corner? && tri.c.Corner?
    && 0 <= tri.a.k < 8 && 0 <= tri.b.k < 8 && 0 <= tri.c.k < 8
    && tri.shading == Fixed(n)
    && OnPlane(n, tri.a.k) && OnPlane(n, tri.b.k) && OnPlane(n, tri.c.k)
    && Cross(Sub(DoubledCorners[tri.b.k], DoubledCorners[tri.a.k]), Sub(DoubledCorners[tri.c.k], DoubledCorners[tri.b.k]))
       == Scale(4, n)
  }

  /** Both triangles of a quad whose corners lie in the plane of n, and
      whose two doubled cross products are 4 n, are outward and
      counter-clockwise with respect to n. */
  lemma QuadOutwardCounterClockwise(q: FaceQuad, n: IVec3, i: int)
    requires q.Valid() && 0 <= i < 2
    requires OnPlane(n, q.a) && OnPlane(n, q.b) && OnPlane(n, q.c) && OnPlane(n, q.d)
    requires DoubledCross(q) == Scale(4, n) && FaceNormal(q) == n
    requires SecondDoubledCross(q) == Scale(4, n)
    ensures OutwardCounterClockwise(QuadFaces(q)[i], n)
  {
  }

  /** Both triangles of face f carry the face's outward normal, lie in its
      plane and turn counter-clockwise about it. */
  lemma FaceOutwardCounterClockwise(f: int, i: int)
    requires 0 <= f < 6 && 0 <= i < 2
    ensures OutwardCounterClockwise(QuadFaces(CubeFaces[f])[i], OutwardNormals[f])
  {
    FaceNormalFacts(f);
    FacePlane(f);
    FaceSecondTriangle(f);
    QuadOutwardCounterClockwise(CubeFaces[f], OutwardNormals[f], i);
  }

  /** Every emitted triangle carries its face's outward normal, lies in that
      face's plane and turns counter-clockwise seen from outside, the
      winding glFrontFace(GL_CCW) keeps. */
  lemma CubeTrianglesOutwardAndCounterClockwise(t: int)
    requires 0 <= t < 12
    ensures OutwardCounterClockwise(CubeTriangles()[t], OutwardNormals[t / 2])
  {
    FaceOutwardCounterClockwise(t / 2, t % 2);
  }
}
