/** The single vertex buffer object: the three meshes' point and normal
    arrays uploaded back to back, and the attribute offsets and vertex
    counts each draw routine binds.  Element sizes are left abstract. */
module Layout {
  import Cube
  import Cone
  import Sphere

  /** sizeof(point4) and sizeof(vec3), in bytes. */
  datatype Sizes = Sizes(point: int, normal: int) {
    predicate Valid() {
      point > 0 && normal > 0
    }
  }

  datatype Primitive = CubeMesh | ConeMesh | SphereMesh

  /** The array lengths the program declares: cubeNumVertices,
      coneNumVertices = 3 * coneSlices, and sphereNumVertices =
      3 * (2 * slices + 2 * slices * (stacks - 2)) with slices = stacks = 20. */
  const ProgramCubeNumVertices := 36
  const ProgramConeSlices := 20
  const ProgramConeNumVertices := 3 * ProgramConeSlices
  const ProgramSphereSlices := 20
  const ProgramSphereStacks := 20
  const ProgramSphereNumVertices := 3 * (2 * ProgramSphereSlices + 2 * ProgramSphereSlices * (ProgramSphereStacks - 2))

  function Count(m: Primitive): int {
    match m
    case CubeMesh => ProgramCubeNumVertices
    case ConeMesh => ProgramConeNumVertices
    case SphereMesh => ProgramSphereNumVertices
  }

  /** sizeof(xPoints) and sizeof(xNormals). */
  function PointsSize(z: Sizes, m: Primitive): int {
    Count(m) * z.point
  }

  function NormalsSize(z: Sizes, m: Primitive): int {
    Count(m) * z.normal
  }

  /** cubeOffset, coneOffset and sphereOffset. */
  function Offset(z: Sizes, m: Primitive): int {
    match m
    case CubeMesh => 0
    case ConeMesh => PointsSize(z, CubeMesh) + NormalsSize(z, CubeMesh)
    case SphereMesh =>
      PointsSize(z, CubeMesh) + NormalsSize(z, CubeMesh) + PointsSize(z, ConeMesh) + NormalsSize(z, ConeMesh)
  }

  /** The size passed to glBufferData. */
  function BufferSize(z: Sizes): int {
    PointsSize(z, CubeMesh) + NormalsSize(z, CubeMesh)
    + PointsSize(z, ConeMesh) + NormalsSize(z, ConeMesh)
    + PointsSize(z, SphereMesh) + NormalsSize(z, SphereMesh)
  }

  /** A byte range [start, start + size) of the buffer. */
  datatype Range = Range(start: int, size: int) {
    function End(): int {
      start + size
    }
  }

  /** The six glBufferSubData calls, in order: each mesh's points at its
      offset, then its normals right after them. */
  function Uploads(z: Sizes): (r: seq<Range>)
    ensures |r| == 6
  {
    [
      Range(Offset(z, CubeMesh), PointsSize(z, CubeMesh)),
      Range(Offset(z, CubeMesh) + PointsSize(z, CubeMesh), NormalsSize(z, CubeMesh)),
      Range(Offset(z, ConeMesh), PointsSize(z, ConeMesh)),
      Range(Offset(z, ConeMesh) + PointsSize(z, ConeMesh), NormalsSize(z, ConeMesh)),
      Range(Offset(z, SphereMesh), PointsSize(z, SphereMesh)),
      Range(Offset(z, SphereMesh) + PointsSize(z, SphereMesh), NormalsSize(z, SphereMesh))
    ]
  }

  /** Which upload holds a mesh's points (its normals are the next one). */
  function PointsUpload(m: Primitive): (k: int)
    ensures 0 <= k < 5 && k % 2 == 0
  {
    match m
    case CubeMesh => 0
    case ConeMesh => 2
    case SphereMesh => 4
  }

  /** The six uploads tile the buffer: the first starts at 0, each starts
      where the one before ends, all are non-empty, they are pairwise
      disjoint, and the last ends at the size given to glBufferData. */
  lemma UploadsTileBuffer(z: Sizes)
    requires z.Valid()
    ensures Uploads(z)[0].start == 0
    ensures forall k :: 0 <= k < 5 ==> Uploads(z)[k].End() == Uploads(z)[k + 1].start
    ensures forall k :: 0 <= k < 6 ==> Uploads(z)[k].size > 0
    ensures forall a, b :: 0 <= a < b < 6 ==> Uploads(z)[a].End() <= Uploads(z)[b].start
    ensures Uploads(z)[5].End() == BufferSize(z)
  {
    var u := Uploads(z);
    assert u[0].End() == u[1].start && u[1].End() == u[2].start && u[2].End() == u[3].start;
    assert u[3].End() == u[4].start && u[4].End() == u[5].start;
    forall a, b | 0 <= a < b < 6
      ensures u[a].End() <= u[b].start
    {
      StartsIncrease(z, a + 1, b);
    }
  }

  /** Later uploads never start before earlier ones end. */
  lemma {:induction false} StartsIncrease(z: Sizes, a: int, b: int)
    requires z.Valid() && 1 <= a <= b < 6
    ensures Uploads(z)[a - 1].End() <= Uploads(z)[b].start
    decreases b - a
  {
    var u := Uploads(z);
    assert u[0].End() == u[1].start && u[1].End() == u[2].start && u[2].End() == u[3].start;
    assert u[3].End() == u[4].start && u[4].End() == u[5].start;
    if a < b {
      StartsIncrease(z, a + 1, b);
    }
  }

  /** What a draw routine binds: the vPosition and vNormal byte offsets and
      the vertex count given to glDrawArrays. */
  datatype Draw = Draw(position: int, normal: int, count: int)

  /** cube1, cone1 and sphere1. */
  function MeshDraw(z: Sizes, m: Primitive): Draw {
    Draw(Offset(z, m), Offset(z, m) + PointsSize(z, m), Count(m))
  }

  /** base, upper_arm and lower_arm bind offsets 0 and sizeof(cubePoints)
      literally and draw cubeNumVertices. */
  function ArmDraw(z: Sizes): Draw {
    Draw(0, PointsSize(z, CubeMesh), ProgramCubeNumVertices)
  }

  /** Each draw reads exactly the arrays uploaded for its mesh: the
      attribute offsets are the starts of the mesh's point and normal
      uploads, and count times element size is the size of each upload. */
  lemma DrawsMatchUploads(z: Sizes, m: Primitive)
    requires z.Valid()
    ensures var d := MeshDraw(z, m);
            var pts := Uploads(z)[PointsUpload(m)];
            var nrm := Uploads(z)[PointsUpload(m) + 1];
            d.position == pts.start && d.normal == nrm.start
            && d.count * z.point == pts.size && d.count * z.normal == nrm.size
    ensures ArmDraw(z) == MeshDraw(z, CubeMesh)
  {
  }

  /** The counts declared here are the ones the generators use, and the
      cube and cone generators write exactly that many slots. */
  lemma ConstantsAgree()
    ensures ProgramCubeNumVertices == Cube.CubeNumVertices
    ensures ProgramConeSlices == Cone.ConeSlices && ProgramConeNumVertices == Cone.ConeNumVertices
    ensures ProgramConeNumVertices == Cone.ConeWritten(ProgramConeSlices)
    ensures ProgramSphereSlices == Sphere.SphereSlices && ProgramSphereStacks == Sphere.SphereStacks
    ensures ProgramSphereNumVertices == Sphere.SphereNumVertices
  {
  }

  /** sphere1 draws all sphereNumVertices slots, but sphere() as written
      fills only the first 6 * slices * (stacks - 2) of them, so the last
      120 slots it draws are the zero-initialised ones; the corrected
      generator fills every drawn slot. */
  lemma SphereDrawReadsUnwrittenSlots(z: Sizes)
    ensures var written := 3 * |Sphere.SphereFacesAsWritten(ProgramSphereSlices, ProgramSphereStacks)|;
            written == 2160 && MeshDraw(z, SphereMesh).count - written == 120
    ensures MeshDraw(z, SphereMesh).count == 3 * |Sphere.SphereFaces(ProgramSphereSlices, ProgramSphereStacks)|
  {
    Sphere.ProgramSphereCounts();
  }

  /** With 16-byte point4 and 12-byte vec3 the offsets are 0, 1008 and
      2688 and the buffer is 66528 bytes: all of them fit the program's
      32-bit unsigned offsets. */
  lemma ProgramLayoutFits()
    ensures var z := Sizes(16, 12);
            Offset(z, CubeMesh) == 0 && Offset(z, ConeMesh) == 1008 && Offset(z, SphereMesh) == 2688
            && BufferSize(z) == 66528 && BufferSize(z) < 0x1_0000_0000
  {
  }
}
