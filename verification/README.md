# Primitive meshes and scene bookkeeping of a small OpenGL demo, in Dafny

The program draws a bicycle, a rider and ten falling balls. Everything in it
is built from three procedural meshes generated once at start-up by
`Primitives.cpp`:

- a unit cube of 36 vertices;
- a unit cone fanned from its apex over `slices` base points;
- a unit sphere of `slices` x `stacks` cells with a top cap, middle bands
  and a bottom cap.

`MyProgram2.cpp` then does the rest:

- it uploads the three meshes' point and normal arrays back to back into
  one vertex buffer;
- it draws each scene element with `model_view` restored from a saved
  viewing matrix;
- it advances ten balls by explicit Euler steps;
- it turns three rotation angles from mouse, idle and menu callbacks.

This project models that core and proves what it does.

- **Meshes** (`geometry.dfy`, `mesh.dfy`, `cube.dfy`, `cone.dfy`, `sphere.dfy`).
  - A vertex is a symbolic point: `Corner(k)`, `Apex`, `Ring(i)`, `North`,
    `South` or `Lat(i, j)`. Trigonometry is left out.
  - A normal is a tag: an exact integer vector for the cube, `Flat(a, b, c)`
    for a triangle's own normalized cross product, or `Radial(p)` for a
    sphere point's outward normal.
  - The cube corners are the `vertices` table scaled by 2, so cross and dot
    products are exact integers.
  - Each generator is a method that mirrors the C++ loop, including its
    `p1`..`p4` shuffling. Its contract says which triangles land in which
    slots, through `Mesh.Emitted`.
- **Buffer layout** (`layout.dfy`). Offsets, upload ranges and draw bindings
  are computed over abstract element sizes.
- **Balls** (`balls.dfy`). The Euler update uses `real`, and there is a
  closed form after n frames.
- **Display** (`scene.dfy`). Matrices are a free term algebra of the program's
  `Translate`/`Rotate*`/`Scale`/`*` expressions. One frame is a method that
  restores the saved matrix before every element.
- **Input** (`input.dfy`). Covers `mouse`, `idle` and `menu` on real-valued
  angles, and runs of events.

Where the code and its documented behaviour disagree, the model follows the
code. The documented sphere vertex count is 3·(2·slices + 2·slices·(stacks−2)).
That is the size the arrays are declared with and the count `sphere1` draws.
`sphere()` writes only 6·slices·(stacks−2) of those slots (see Findings).

## Model

| member | source | states |
|---|---|---|
| Mesh.NextIsSuccessorModulo | Primitives.cpp:98-99 | the ring-index successor used by the fans is (t+1) mod n, stays in range, and has exactly one predecessor |
| Mesh.Blanks | Primitives.cpp:116-117 | the zero-initialised global arrays: every slot holds the origin with a zero normal |
| Mesh.VerticesAppend | Primitives.cpp:40-45 | the slot image of consecutive triangle lists is the concatenation of their images |
| Mesh.VerticesIndex | Primitives.cpp:40-45 | slot 3t+m of a triangle list's image is corner m of triangle t |
| Mesh.Write3 | Primitives.cpp:94-96 | three consecutive slot writes at idx change exactly slots idx..idx+2 and nothing else |
| Mesh.WriteFace | Primitives.cpp:94-96 | writing one triangle's three slots is an emission of exactly that triangle at idx |
| Mesh.EmittedChain | Primitives.cpp:85-106 | two emissions, the second starting where the first ends, form one emission of the concatenated triangles |
| Mesh.WriteFaces | Primitives.cpp:94-96 | writing a triangle list face by face from idx is an emission of exactly that list |
| Mesh.EmitMore | Primitives.cpp:85-106 | continuing an emission of xs with the faces ys right after it gives an emission of xs + ys |
| Mesh.EmittedSlot | Primitives.cpp:94-96 | after an emission, slot at+3t+m holds corner m of triangle t with its normal |
| Mesh.EmittedFlat | Primitives.cpp:90-96 | flat-shaded triangles put one shared normal, the cross product of their own corners, in all three slots |
| Mesh.EmittedRadial | Primitives.cpp:141-143 | smooth triangles give every slot the radial normal of its own point |
| Mesh.EmittedLeavesRest | Primitives.cpp:127 | an emission leaves every slot beyond its last triangle as it was |
| Cube.QuadStep | Primitives.cpp:30-46 | quad(a,b,c,d) writes corners a,b,c,a,c,d at cubeIdx..cubeIdx+5 with one shared normal and advances cubeIdx by 6 |
| Cube.Quads | Primitives.cpp:51-60 | a run of quad calls emits their triangles in call order and advances cubeIdx by 6 per call |
| Cube.CubeGen | Primitives.cpp:51-60 | cube() emits the twelve cube triangles from cubeIdx on and advances it by 36; it needs 36 free slots past cubeIdx |
| Cube.QuadTrianglesIndex | Primitives.cpp:51-60 | triangle 2f+h of a quad run is triangle h of quad call f |
| Cube.CubeFillsBuffer | Primitives.cpp:10-28 | from cubeIdx = 0, cube() fills exactly slots 0..35, leaves cubeIdx = 36 = cubeNumVertices, and a second call would not fit |
| Cube.CubeTrianglesInCallOrder | Primitives.cpp:51-60 | the six quad() calls, in order, emit exactly the cube's triangle table: cube triangle t is triangle t mod 2 of quad call t/2 |
| Cube.CubeSlot | Primitives.cpp:40-45 | from any cubeIdx, slot cubeIdx+3t+m holds corner m of cube triangle t |
| Cube.CubeFirstSlot | Primitives.cpp:15-54 | the first slot written is corner 1, (-1/2, 1/2, 1/2), with normal +z |
| Cube.FaceNormalFacts | Primitives.cpp:35-38 | for each face, cross(v[b]-v[a], v[c]-v[b]) is exactly 4 times (doubled units) that face's outward unit normal |
| Cube.FacePlane | Primitives.cpp:15-24 | all four corners of each face lie on the plane normal·p = 1/2, on the side of the centre (where normal·p = 0) that the normal points to, so the normal points outward |
| Cube.FaceSecondTriangle | Primitives.cpp:43-45 | the second triangle (a,c,d) of every face has the same outward cross product as the first |
| Cube.CubeNormalsAreOutward | Primitives.cpp:54-59 | the normal quad computes for each of the six faces is that face's outward normal |
| Cube.OutwardNormalsAreAxisUnits | Primitives.cpp:54-59 | the six face normals are exactly {±x, ±y, ±z}, pairwise distinct, each of unit length |
| Cube.QuadOutwardCounterClockwise | Primitives.cpp:30-46 | a quad whose four corners lie on the plane of n and whose two triangles' cross products are both 4n emits two triangles that carry n, lie on that plane and wind counter-clockwise about n |
| Cube.FaceOutwardCounterClockwise | Primitives.cpp:54-59 | both triangles of each of the six quad() calls carry that face's outward normal, lie on its plane and wind counter-clockwise about it |
| Cube.CubeTrianglesOutwardAndCounterClockwise | Primitives.cpp:35-45 | every emitted cube triangle has its corners on its face plane and its stored normal outward; its cross product is a positive multiple of that normal, i.e. counter-clockwise from outside |
| Cone.ConeFaces | Primitives.cpp:85-106 | the cone's triangle list has slices triangles, or one when the loop never runs |
| Cone.ConeWritten | Primitives.cpp:85-106 | cone(slices) writes three slots per triangle of its list |
| Cone.GenerateCone | Primitives.cpp:76-107 | cone(slices) emits, from slot 0, the slices-1 loop triangles (apex, ring i, ring i+1) and the closing triangle back to ring 0; with slices <= 1 it emits one triangle through the never-assigned zero point |
| Cone.ConeFillsBuffer | Primitives.cpp:64-65 | cone(coneSlices) writes exactly coneNumVertices = 60 slots |
| Cone.ConeFanIsClosed | Primitives.cpp:98-106 | every triangle is (apex, ring t, ring t+1 mod slices); neighbours share an edge and the last closes onto ring 0 |
| Cone.ConeRingPointInTwoTriangles | Primitives.cpp:85-99 | ring point k is a corner of triangle t exactly when t = k or t+1 = k mod slices |
| Cone.ConeNormalsAreFlat | Primitives.cpp:90-106 | all three slots of every cone triangle carry that triangle's flat normal |
| Sphere.TopCap | Primitives.cpp:136-150 | the top cap has one triangle per slice |
| Sphere.Band | Primitives.cpp:155-181 | a middle band has two triangles per slice |
| Sphere.BandCell | Primitives.cpp:162-168 | triangles 2i and 2i+1 of a band are the two halves (p1,p2,p3), (p1,p3,p4) of cell i |
| Sphere.BandPrefix | Primitives.cpp:155-169 | the first 2i triangles of a band are the first i cells |
| Sphere.BottomCap | Primitives.cpp:187-199 | the corrected bottom cap has one triangle per slice |
| Sphere.BottomCapAsWritten | Primitives.cpp:186-208 | the bottom cap as written has one triangle per slice |
| Sphere.EmitTopCap | Primitives.cpp:136-150 | the first-stack loop and its closing triangle emit the top cap: (north, Lat(t,1), Lat(t+1,1)) with radial normals |
| Sphere.EmitBandCells | Primitives.cpp:155-169 | the inner loop of middle stack j emits cells 0..slices-2 of band j and leaves p3, p4 on slice slices-1 |
| Sphere.EmitBand | Primitives.cpp:155-181 | one middle stack j, wrap cell included, emits band j into 6·slices slots |
| Sphere.EmitBands | Primitives.cpp:153-183 | the middle-stack loop up to a bound emits bands 1 .. bound-1 in order |
| Sphere.BandsGrow | Primitives.cpp:153 | each further middle stack adds 2·slices triangles |
| Sphere.BandsLength | Primitives.cpp:153-183 | bands lo..hi-1 hold 2·slices·(hi-lo) triangles, none when hi <= lo |
| Sphere.BandsIndex | Primitives.cpp:153-183 | in bands lo..hi-1, triangle q of band j follows the triangles of bands lo..j-1 |
| Sphere.BandRings | Primitives.cpp:157-160 | every triangle of band j uses only rings j and j+1, and touches both |
| Sphere.BandsRings | Primitives.cpp:153-183 | every triangle of bands lo..hi-1 uses only rings lo..hi |
| Sphere.EmitBottomLoop | Primitives.cpp:187-199 | the last-stack loop emits (south, Lat(i+1,st-1), Lat(i,st-1)) for i < slices-1 and leaves p1 = Lat(slices-1, st-1) |
| Sphere.EmitBottomCapAsWritten | Primitives.cpp:186-208 | as written, the last stack emits the loop triangles and then (south, Lat(slices-1,st-1), Lat(0,st-1)) |
| Sphere.EmitBottomCap | Primitives.cpp:186-208 | corrected, the closing triangle is (south, Lat(0,st-1), Lat(slices-1,st-1)), like the loop ones |
| Sphere.EmitUpper | Primitives.cpp:136-183 | the first stack then the middle loop up to a bound emit the top cap followed by bands 1 .. bound-1 |
| Sphere.GenerateSphereAsWritten | Primitives.cpp:125-209 | sphere(slices, stacks) as written emits top cap, bands 1..stacks-3 and its bottom cap from slot 0 |
| Sphere.GenerateSphere | Primitives.cpp:125-209 | the corrected generator emits top cap, bands 1..stacks-2 and the corrected bottom cap |
| Sphere.AsWrittenCount | Primitives.cpp:153 | as written, sphere writes 6·slices·(stacks-2) slots, 6·slices fewer than sphereNumVertices |
| Sphere.CorrectedCount | Primitives.cpp:114 | corrected, it writes exactly 3·(2·slices + 2·slices·(stacks-2)) slots |
| Sphere.ProgramSphereCounts | Primitives.cpp:112-114 | for 20 x 20: 2280 slots declared, 2160 written as written, 2280 corrected |
| Sphere.AsWrittenLeavesTailUnwritten | Primitives.cpp:116-117 | as written, the last 6·slices slots of the declared arrays keep their zero contents |
| Sphere.AsWrittenLeavesBandOpen | Primitives.cpp:153 | as written, no triangle joins ring stacks-2 to ring stacks-1 |
| Sphere.CorrectedClosesEveryBand | Primitives.cpp:153 | corrected, for every j in 1..stacks-2 some triangle joins ring j to ring j+1 |
| Sphere.CorrectionIsLocal | Primitives.cpp:153-208 | the correction adds exactly band stacks-2 and swaps the two ring corners of the closing bottom triangle; everything else is kept |
| Sphere.AsWrittenBottomWinding | Primitives.cpp:200-201 | as written, the loop triangles run backwards round the last ring and the closing one forwards; for slices >= 3 it is not backwards |
| Sphere.CorrectedBottomWinding | Primitives.cpp:187-208 | corrected, every bottom triangle runs backwards round the last ring |
| Sphere.TopCapPattern | Primitives.cpp:136-150 | top triangle t is (north, Lat(t,1), Lat((t+1) mod slices, 1)); the fan closes onto Lat(0,1) |
| Sphere.BandPattern | Primitives.cpp:155-181 | cell i of band j, the wrap cell included, is (Lat(i,j), Lat(i,j+1), Lat(i',j+1)) and (Lat(i,j), Lat(i',j+1), Lat(i',j)) with i' = (i+1) mod slices |
| Sphere.AsWrittenNormalPolicies | Primitives.cpp:141-198 | radial normals in every slot of the top cap and bands, one flat normal per bottom-cap triangle |
| Sphere.BandsSmooth | Primitives.cpp:162-181 | every band triangle is smooth-shaded |
| Layout.Uploads | MyProgram2.cpp:105-110 | there are six glBufferSubData ranges |
| Layout.UploadsTileBuffer | MyProgram2.cpp:100-110 | the six uploads start at 0, are contiguous, non-empty and pairwise disjoint, and end at the glBufferData size |
| Layout.StartsIncrease | MyProgram2.cpp:105-110 | no upload starts before an earlier one ends |
| Layout.DrawsMatchUploads | MyProgram2.cpp:266-359 | each draw routine's position and normal offsets are the starts of its mesh's uploads, and count × element size is each upload's size; the arms bind the cube's |
| Layout.ConstantsAgree | MyProgram2.cpp:51-65 | the counts declared for drawing are the generators' counts, and cone and cube write exactly that many |
| Layout.SphereDrawReadsUnwrittenSlots | MyProgram2.cpp:359 | sphere1 draws 2280 slots, 120 of which sphere() as written never fills; corrected, it fills them all |
| Layout.ProgramLayoutFits | MyProgram2.cpp:71-73 | with 16-byte points and 12-byte normals the offsets are 0, 1008, 2688 and the buffer 66528 bytes, within 32 bits |
| Balls.Step | MyProgram2.cpp:367-374 | a frame never changes acc (the gravity update is commented out) or deltaT |
| Balls.TriFormula | MyProgram2.cpp:373-374 | the accumulated step count 1 + ... + n is n(n+1)/2 |
| Balls.CoefficientsClosedForm | MyProgram2.cpp:373-374 | the accumulated coefficients are Speed = n·dt and Travel = dt²·n(n+1)/2 |
| Balls.RunClosedForm | MyProgram2.cpp:363-379 | from any state, after n frames acc and deltaT are unchanged, vel = v0 + Speed·acc and pos = p0 + Speed·v0 + Travel·acc |
| Balls.StepOnTrajectory | MyProgram2.cpp:373-374 | one step keeps a state on the closed-form trajectory, advancing s by dt and t by dt times the new s |
| Balls.FromRest | MyProgram2.cpp:365-373 | from rest, after n frames vel = Speed·acc and pos = pos0 + Travel·acc: the ball moves along its acceleration |
| Balls.OneFrameFromRest | MyProgram2.cpp:365-373 | from rest, one frame gives vel = dt·acc and pos = pos0 + dt²·acc |
| Balls.BallsMoveAlongAcceleration | MyProgram2.cpp:363-553 | each of the ten balls moves from its start along (3, 9, 0), by Travel(dt, n) = dt²·n(n+1)/2 times it, and never in z |
| Balls.FirstBallFirstFrame | MyProgram2.cpp:363-380 | ball()'s first frame gives vel (0.003, 0.009, 0) and pos (-2.999997, 2.000009, 0) |
| Scene.Submit | MyProgram2.cpp:177-360 | sphere1, cone1 and cube1 submit model_view itself and bind their own mesh; upper_arm submits model_view × instance(UPPER_ARM_HEIGHT, UPPER_ARM_WIDTH) and lower_arm model_view × instance(LOWER_ARM_HEIGHT, LOWER_ARM_WIDTH), both on the cube; only sphere1 draws in its given mode |
| Scene.Display | MyProgram2.cpp:555-705 | draw k is view·local_k through element k's routine, independent of earlier draws; each ball is stepped once and drawn as view·Translate(new pos) in line mode |
| Scene.FrameAdvancesBalls | MyProgram2.cpp:668-699 | a frame takes the balls' statics from f to f+1 steps |
| Scene.BallDrawnAlongItsPath | MyProgram2.cpp:664-699 | in frame f ball k is drawn at its start plus dt²·(f+1)(f+2)/2·(3, 9, 0) |
| Scene.SceneDrawKinds | MyProgram2.cpp:586-663 | for every Theta, of the 13 scene elements, elements 0-3 and 9 draw the sphere, and all of those in line mode; element 8 is the cone; exactly elements 4-7, the arms, do not submit view·local itself |
| Input.WrapUp | MyProgram2.cpp:726-734 | an increase with wrap above 360 turns by d or d-360 and keeps [0, 360] |
| Input.WrapDown | MyProgram2.cpp:739-740 | a decrease with wrap below 0 turns by -d or 360-d and keeps [0, 360] |
| Input.Mouse | MyProgram2.cpp:721-742 | a press turns the button's axis by 10.5, and Theta[Axis1] by +5 (left) or -5 (right); each angle moves by that net turn modulo one full turn; nothing else changes, releases change nothing, and [0, 360] is kept |
| Input.Idle | MyProgram2.cpp:746-754 | idle turns Theta[2] by 0.07 modulo a full turn, keeps Theta[0], Theta[1] and [0, 360] |
| Input.Menu | MyProgram2.cpp:709-718 | menu exits exactly on Quit (4) and otherwise sets Axis1 to the option, angles unchanged |
| Input.RegisteredEntriesKeepAxisValid | MyProgram2.cpp:812-815 | each registered entry (0, 1, 2, Quit) quits or leaves Axis1 a valid index into Theta; any other value would not |
| Input.Handle | MyProgram2.cpp:709-754 | one callback from a valid state quits exactly on Quit and otherwise leaves a valid state |
| Input.Run | MyProgram2.cpp:709-754 | a run of registered events quits exactly when Quit is among them, and otherwise ends in a valid state |
| Input.AnglesStayInRange | MyProgram2.cpp:32-34 | from Theta = {0,0,0}, Axis1 = Base, all angles stay in [0, 360] and Axis1 in 0..2 until Quit |

## Left out

- OpenGL and GLUT calls are left out because they are foreign I/O: shader loading, attribute binding, uniforms, lighting and material colours, buffer swaps, window set-up, `keyboard` ('q'/Escape quits) and `reshape` (fixed orthographic projection). The model keeps only the values these calls receive: offsets, counts, modes and ModelView terms.
- Cone and sphere positions and normals are symbolic. The model does not evaluate `cos`/`sin`/`normalize`/`cross` on floats. As a result it does not capture that `v_rad = 2π/stacks` (Primitives.cpp:133) places ring j at polar angle 2πj/stacks, so the rings sweep the polar range twice: for stacks = 20 they run from 18° past the south pole (j = 10) back up to 342°. Ring stacks−1, which the bottom cap (Primitives.cpp:186-208) joins to `southpole`, therefore lies near the north pole (z = cos 342° ≈ 0.95).
- Floats are not modelled. Angles, ball states and `deltaT` are exact reals, so GLfloat rounding (for example of 0.07 or 0.0009) is not represented.
- The Angel.h matrix operations are a free term algebra (`Scene.Mat`). Two submissions are equal when built from the same expression; matrix arithmetic such as associativity is not modelled.
- Sphere.GenerateSphereAsWritten: requires slices >= 2 (Sphere.GenerateSphere likewise). With fewer slices the closing top triangle and the wrap cells are built from locals still holding the zero point or a previous stack's corners; the model does not follow those degenerate triangles. The cone's single degenerate triangle is modelled for every slices.
- Sphere.AsWrittenCount: requires stacks >= 3. With fewer stacks the documented count is not 6·slices more than what is written.
- Cube.QuadStep: the stored normal is the quarter of the doubled integer cross product. It equals `normalize(cross(u, v))` (Primitives.cpp:35-38) only for the six cube faces, whose cross products are already axis unit vectors (`Cube.FaceNormalFacts`, `Cube.OutwardNormalsAreAxisUnits`). For any other corner quad the model does not normalize.
- Cube.CubeGen: the global `cubeIdx` is a state parameter. The program calls `cube()` once, from 0.
- `base`, `robot1` and the rotation about `Theta[LowerArm]`/`Theta[UpperArm]` are not modelled: `robot1` is never called. `upper_arm` and `lower_arm` are modelled only through the matrix and mesh they submit.
- Input.Mouse: GLUT delivers middle-button presses to the menu, because the menu is attached to that button. The middle case of the switch is still modelled as written.
- Input.Run: only menu values the program registers are delivered. Unregistered values are shown to break Axis1 (`Input.RegisteredEntriesKeepAxisValid`), not run.
- Layout: element sizes are abstract positive integers. The 32-bit offset type is checked only for the actual 16/12-byte sizes.

## Findings

| source | as written | input that shows it | evidently intended | confidence | as-written member | corrected member |
|---|---|---|---|---|---|---|
| Primitives.cpp:153 | the middle-stack loop runs `j < stacks - 2`, so bands 1..stacks-3 are emitted and the band between rings stacks-2 and stacks-1 is missing; the sphere writes 6·slices·(stacks-2) slots while its arrays hold, and `sphere1` draws, 3·(2·slices + 2·slices·(stacks-2)) | slices = stacks = 20: 2160 of 2280 slots written, the last 120 drawn as zero points, no triangle between rings 18 and 19 | `j < stacks - 1`, which emits every band and fills exactly the declared count | not executed | Sphere.GenerateSphereAsWritten, Sphere.AsWrittenLeavesBandOpen, Sphere.AsWrittenLeavesTailUnwritten, Sphere.AsWrittenCount | Sphere.GenerateSphere, Sphere.CorrectedClosesEveryBand, Sphere.CorrectedCount |
| Primitives.cpp:200-201 | `p2 = p1; p2 = evalSphere(0, ...)` overwrites p2 twice and leaves p1 at the last loop point, so the closing bottom triangle is (south, Lat(slices-1), Lat(0)), traversed opposite to the loop's (south, Lat(i+1), Lat(i)) | slices = 3: loop triangles (S, L1, L0), (S, L2, L1), closing (S, L2, L0) instead of (S, L0, L2); its flat normal is reversed | `p2 = p1; p1 = evalSphere(0, ...)`, the same pattern as the cone and top cap | not executed | Sphere.EmitBottomCapAsWritten, Sphere.AsWrittenBottomWinding | Sphere.EmitBottomCap, Sphere.CorrectedBottomWinding |
