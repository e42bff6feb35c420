/** Symbolic vertices, normal tags and triangle lists shared by the three
    primitive generators.  A position is named by where it comes from rather
    than by its floating-point coordinates; a normal is named by how it is
    computed. */
module Mesh {
  import opened Geometry

  datatype Point =
    | Origin              // a never-written slot: point4() is (0,0,0,0)
    | Corner(k: int)      // vertices[k] of the unit cube
    | Apex                // the cone's tip (0,0,1)
    | Ring(i: int)        // evalCircle(i * 2pi/slices), the cone's base circle
    | North               // the sphere's pole (0,0,1)
    | South               // the sphere's pole (0,0,-1)
    | Lat(i: int, j: int) // evalSphere(i * u_rad, j * v_rad): slice i of ring j

  datatype Normal =
    | ZeroNormal                          // a never-written slot: vec3() is (0,0,0)
    | Exact(v: IVec3)                     // an exactly known unit vector
    | Flat(a: Point, b: Point, c: Point)  // normalize(cross(b - a, c - b))
    | Radial(p: Point)                    // normalize(p.xyz)

  /** The index after t on a ring of n points, wrapping from n - 1 to 0. */
  function Next(t: int, n: int): int {
    if t + 1 == n then 0 else t + 1
  }

  /** On a ring, Next is addition modulo n, and every index has exactly
      one predecessor. */
  lemma NextIsSuccessorModulo(t: int, n: int)
    requires 0 <= t < n
    ensures Next(t, n) == (t + 1) % n
    ensures 0 <= Next(t, n) < n
    ensures forall u :: 0 <= u < n && Next(u, n) == Next(t, n) ==> u == t
  {
    if t == n - 1 {
      assert t + 1 == 1 * n;
    }
  }

  /** One slot of the parallel points/normals arrays. */
  datatype Vertex = Vertex(pos: Point, normal: Normal)

  /** What a zero-initialised slot holds before any generator writes it. */
  const Blank := Vertex(Origin, ZeroNormal)

  function Blanks(n: nat): (r: seq<Vertex>)
    ensures |r| == n
    ensures forall k :: 0 <= k < n ==> r[k] == Blank
  {
    seq(n, _ => Blank)
  }

  /** Smooth: each vertex carries the radial normal of its own position.
      FlatShaded: all three vertices carry the cross-product normal of the
      triangle, taken in emission order.
      Fixed: all three vertices carry one exactly known normal. */
  datatype Shading = Smooth | FlatShaded | Fixed(n: IVec3)

  datatype Face = Face(a: Point, b: Point, c: Point, shading: Shading) {

    function Pos(m: int): Point
      requires 0 <= m < 3
    {
      if m == 0 then a else if m == 1 then b else c
    }

    function NormalAt(m: int): Normal
      requires 0 <= m < 3
    {
      match shading
      case Smooth => Radial(Pos(m))
      case FlatShaded => Flat(a, b, c)
      case Fixed(n) => Exact(n)
    }

    function VertexAt(m: int): Vertex
      requires 0 <= m < 3
    {
      Vertex(Pos(m), NormalAt(m))
    }

    /** The three consecutive slots a triangle occupies in a triangle list. */
    function Emit(): seq<Vertex> {
      [VertexAt(0), VertexAt(1), VertexAt(2)]
    }

    predicate Touches(p: Point) {
      a == p || b == p || c == p
    }

    /** Some corner of the face lies on sphere ring `j`. */
    predicate OnRing(j: int) {
      (a.Lat? && a.j == j) || (b.Lat? && b.j == j) || (c.Lat? && c.j == j)
    }
  }

  /** The flat triangle list of a face sequence: every three consecutive
      vertices form one triangle. */
  function Vertices(fs: seq<Face>): (vs: seq<Vertex>)
    ensures |vs| == 3 * |fs|
  {
    if |fs| == 0 then [] else Vertices(fs[..|fs| - 1]) + fs[|fs| - 1].Emit()
  }

  lemma {:induction false} VerticesAppend(xs: seq<Face>, ys: seq<Face>)
    ensures Vertices(xs + ys) == Vertices(xs) + Vertices(ys)
    decreases |ys|
  {
    if |ys| == 0 {
      assert xs + ys == xs;
    } else {
      var ys' := ys[..|ys| - 1];
      var y := ys[|ys| - 1];
      assert (xs + ys)[..|xs + ys| - 1] == xs + ys';
      assert ys[..|ys| - 1] == ys';
      VerticesAppend(xs, ys');
    }
  }

  /** Slot 3t+m of the triangle list is corner m of face t. */
  lemma {:induction false} VerticesIndex(fs: seq<Face>, t: int, m: int)
    requires 0 <= t < |fs| && 0 <= m < 3
    ensures Vertices(fs)[3 * t + m] == fs[t].VertexAt(m)
    decreases |fs|
  {
    var init := fs[..|fs| - 1];
    if t < |fs| - 1 {
      VerticesIndex(init, t, m);
    } else {
      assert |Vertices(init)| == 3 * t;
    }
  }

  /** Writes three consecutive slots, as each generator does with
      `points[idx] = ...; idx++` three times. */
  function Write3(buf: seq<Vertex>, at: int, v0: Vertex, v1: Vertex, v2: Vertex): (r: seq<Vertex>)
    requires 0 <= at && at + 3 <= |buf|
    ensures |r| == |buf|
    ensures r[..at] == buf[..at]
    ensures r[at..at + 3] == [v0, v1, v2]
    ensures r[at + 3..] == buf[at + 3..]
  {
    buf[at := v0][at + 1 := v1][at + 2 := v2]
  }

  /** Writes the three slots of one triangle from slot `at` on. */
  function WriteFace(buf: seq<Vertex>, at: int, f: Face): (r: seq<Vertex>)
    requires 0 <= at && at + 3 <= |buf|
    ensures Emitted(buf, r, at, [f])
  {
    EmittedOneFace(buf, at, f);
    Write3(buf, at, f.VertexAt(0), f.VertexAt(1), f.VertexAt(2))
  }

  /** `after` is `before` with the triangle list of `fs` written from slot
      `at` on, inside the buffer, and every other slot unchanged. */
  predicate Emitted(before: seq<Vertex>, after: seq<Vertex>, at: int, fs: seq<Face>) {
    && |after| == |before|
    && 0 <= at && at + 3 * |fs| <= |before|
    && after[..at] == before[..at]
    && after[at..at + 3 * |fs|] == Vertices(fs)
    && after[at + 3 * |fs|..] == before[at + 3 * |fs|..]
  }

  lemma EmittedNothing(buf: seq<Vertex>, at: int)
    requires 0 <= at <= |buf|
    ensures Emitted(buf, buf, at, [])
  {
  }

  lemma EmittedOneFace(before: seq<Vertex>, at: int, f: Face)
    requires 0 <= at && at + 3 <= |before|
    ensures Emitted(before, Write3(before, at, f.VertexAt(0), f.VertexAt(1), f.VertexAt(2)), at, [f])
  {
    assert Vertices([f]) == f.Emit() by {
      assert [f][..0] == [];
    }
  }

  /** Two adjacent emissions make one emission of the concatenated faces. */
  lemma EmittedChain(b0: seq<Vertex>, b1: seq<Vertex>, b2: seq<Vertex>, at: int, xs: seq<Face>, ys: seq<Face>)
    requires Emitted(b0, b1, at, xs)
    requires Emitted(b1, b2, at + 3 * |xs|, ys)
    ensures Emitted(b0, b2, at, xs + ys)
  {
    var mid := at + 3 * |xs|;
    var end := mid + 3 * |ys|;
    VerticesAppend(xs, ys);
    KeepsBefore(b0, b1, b2, at, mid);
    JoinsMiddle(b1, b2, at, mid, end, Vertices(xs), Vertices(ys));
    KeepsAfter(b0, b1, b2, mid, end);
  }

  /** The slice-level steps of EmittedChain. */
  lemma KeepsBefore(b0: seq<Vertex>, b1: seq<Vertex>, b2: seq<Vertex>, at: int, mid: int)
    requires 0 <= at <= mid <= |b0| == |b1| == |b2|
    requires b1[..at] == b0[..at] && b2[..mid] == b1[..mid]
    ensures b2[..at] == b0[..at]
  {
    assert b2[..at] == b2[..mid][..at];
    assert b1[..at] == b1[..mid][..at];
  }

  lemma JoinsMiddle(b1: seq<Vertex>, b2: seq<Vertex>, at: int, mid: int, end: int, u: seq<Vertex>, v: seq<Vertex>)
    requires 0 <= at <= mid <= end <= |b1| == |b2|
    requires b1[at..mid] == u && b2[..mid] == b1[..mid] && b2[mid..end] == v
    ensures b2[at..end] == u + v
  {
    assert b2[at..mid] == b2[..mid][at..];
    assert b1[at..mid] == b1[..mid][at..];
    assert b2[at..end] == b2[at..mid] + b2[mid..end];
  }

  lemma KeepsAfter(b0: seq<Vertex>, b1: seq<Vertex>, b2: seq<Vertex>, mid: int, end: int)
    requires 0 <= mid <= end <= |b0| == |b1| == |b2|
    requires b1[mid..] == b0[mid..] && b2[end..] == b1[end..]
    ensures b2[end..] == b0[end..]
  {
    assert b1[end..] == b1[mid..][end - mid..];
    assert b0[end..] == b0[mid..][end - mid..];
  }

  /** EmittedChain, naming the concatenation the caller tracks. */
  lemma EmittedThen(b0: seq<Vertex>, b1: seq<Vertex>, b2: seq<Vertex>, at: int, xs: seq<Face>, ys: seq<Face>, zs: seq<Face>)
    requires Emitted(b0, b1, at, xs)
    requires Emitted(b1, b2, at + 3 * |xs|, ys)
    requires xs + ys == zs
    ensures Emitted(b0, b2, at, zs)
  {
    EmittedChain(b0, b1, b2, at, xs, ys);
  }

  /** Writes the triangle list fs from slot at on, face by face. */
  function WriteFaces(buf: seq<Vertex>, at: int, fs: seq<Face>): (r: seq<Vertex>)
    requires 0 <= at && at + 3 * |fs| <= |buf|
    ensures Emitted(buf, r, at, fs)
    decreases |fs|
  {
    if fs == [] then
      EmittedNothing(buf, at);
      buf
    else
      var b1 := WriteFace(buf, at, fs[0]);
      var r := WriteFaces(b1, at + 3, fs[1..]);
      EmittedChain(buf, b1, r, at, [fs[0]], fs[1..]);
      assert [fs[0]] + fs[1..] == fs;
      r
  }

  /** Continues an emission of xs with the faces ys, giving an emission of
      zs = xs + ys. */
  function EmitMore(b0: seq<Vertex>, b1: seq<Vertex>, at: int, xs: seq<Face>, ys: seq<Face>, zs: seq<Face>): (b2: seq<Vertex>)
    requires Emitted(b0, b1, at, xs) && xs + ys == zs && at + 3 * |zs| <= |b0|
    ensures Emitted(b0, b2, at, zs)
  {
    var b2 := WriteFaces(b1, at + 3 * |xs|, ys);
    EmittedChain(b0, b1, b2, at, xs, ys);
    b2
  }

  /** The face that owns slot k, for callers that index a triangle list. */
  lemma EmittedSlot(before: seq<Vertex>, after: seq<Vertex>, at: int, fs: seq<Face>, t: int, m: int)
    requires Emitted(before, after, at, fs)
    requires 0 <= t < |fs| && 0 <= m < 3
    ensures after[at + 3 * t + m] == fs[t].VertexAt(m)
  {
    VerticesIndex(fs, t, m);
    assert after[at + 3 * t + m] == after[at..at + 3 * |fs|][3 * t + m];
  }

  /** Triangle t of the list stored from slot lo carries, on all three of
      its slots, the flat normal of its own corners taken in slot order. */
  predicate FlatAt(buf: seq<Vertex>, lo: int, t: int)
    requires 0 <= lo && 0 <= t && lo + 3 * t + 3 <= |buf|
  {
    var n := Flat(buf[lo + 3 * t].pos, buf[lo + 3 * t + 1].pos, buf[lo + 3 * t + 2].pos);
    buf[lo + 3 * t].normal == n && buf[lo + 3 * t + 1].normal == n && buf[lo + 3 * t + 2].normal == n
  }

  /** Slot k carries the radial normal of its own position. */
  predicate RadialAt(buf: seq<Vertex>, k: int)
    requires 0 <= k < |buf|
  {
    buf[k].normal == Radial(buf[k].pos)
  }

  /** The faces lo .. hi - 1 of a region written with the flat policy: one
      cross-product normal per triangle, shared by its three slots. */
  lemma EmittedFlat(before: seq<Vertex>, after: seq<Vertex>, at: int, fs: seq<Face>, lo: int, hi: int)
    requires Emitted(before, after, at, fs)
    requires 0 <= lo <= hi <= |fs|
    requires forall t :: lo <= t < hi ==> fs[t].shading == FlatShaded
    ensures forall t :: lo <= t < hi ==> FlatAt(after, at, t)
  {
    forall t | lo <= t < hi
      ensures FlatAt(after, at, t)
    {
      EmittedSlot(before, after, at, fs, t, 0);
      EmittedSlot(before, after, at, fs, t, 1);
      EmittedSlot(before, after, at, fs, t, 2);
    }
  }

  /** The slots of faces lo .. hi - 1 of a region written with the radial
      policy: every slot's normal is its own position, normalized. */
  lemma EmittedRadial(before: seq<Vertex>, after: seq<Vertex>, at: int, fs: seq<Face>, lo: int, hi: int)
    requires Emitted(before, after, at, fs)
    requires 0 <= lo <= hi <= |fs|
    requires forall t :: lo <= t < hi ==> fs[t].shading == Smooth
    ensures forall k :: at + 3 * lo <= k < at + 3 * hi ==> RadialAt(after, k)
  {
    forall k | at + 3 * lo <= k < at + 3 * hi
      ensures RadialAt(after, k)
    {
      var t := (k - at) / 3;
      var m := (k - at) % 3;
      EmittedSlot(before, after, at, fs, t, m);
    }
  }

  /** Slots past the written region keep what they held. */
  lemma EmittedLeavesRest(before: seq<Vertex>, after: seq<Vertex>, at: int, fs: seq<Face>)
    requires Emitted(before, after, at, fs)
    ensures forall k :: at + 3 * |fs| <= k < |after| ==> after[k] == before[k]
  {
    var end := at + 3 * |fs|;
    forall k | end <= k < |after|
      ensures after[k] == before[k]
    {
      assert after[k] == after[end..][k - end];
    }
  }
}
