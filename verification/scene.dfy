/** One frame of display(): the viewing matrix built from Theta, the
    thirteen scene elements and the ten balls, each drawn after restoring
    the saved viewing matrix.  Matrices are kept as terms of the program's
    matrix expressions, so two submissions are equal exactly when they are
    built the same way. */
module Scene {
  import Balls
  import Layout

  /** The Angel.h matrix constructors and the product `*`. */
  datatype Mat =
    | Translate(x: real, y: real, z: real)
    | RotateX(deg: real)
    | RotateY(deg: real)
    | RotateZ(deg: real)
    | Scale(sx: real, sy: real, sz: real)
    | Mul(left: Mat, right: Mat)

  /** glDrawArrays' primitive mode. */
  datatype Mode = Triangles | Lines

  /** The drawing routines display() calls.  sphere1 takes its mode as a
      parameter; the others always draw triangles. */
  datatype Routine = Sphere1(mode: Mode) | Cone1 | Cube1 | UpperArm | LowerArm

  /** What a routine hands to OpenGL: the mesh whose arrays it binds, the
      primitive mode and the ModelView uniform. */
  datatype Draw = Draw(mesh: Layout.Primitive, mode: Mode, modelView: Mat)

  const UpperArmHeight := 5.0
  const UpperArmWidth := 0.5
  const LowerArmHeight := 5.0
  const LowerArmWidth := 0.5

  /** The arms stand a unit cube on its base and stretch it to the arm's
      width and height. */
  function ArmInstance(height: real, width: real): Mat {
    Mul(Translate(0.0, 0.5 * height, 0.0), Scale(width, height, width))
  }

  /** The draw a routine issues when called with model_view = mv: sphere1,
      cone1 and cube1 submit mv itself, the arms submit mv * instance. */
  function Submit(r: Routine, mv: Mat): (d: Draw)
    ensures d.mesh == (match r
                       case Sphere1(_) => Layout.SphereMesh
                       case Cone1 => Layout.ConeMesh
                       case _ => Layout.CubeMesh)
    ensures d.mode == (if r.Sphere1? then r.mode else Triangles)
    ensures (r.Sphere1? || r.Cone1? || r.Cube1?) <==> d.modelView == mv
    ensures r.UpperArm? ==> d.modelView == Mul(mv, ArmInstance(UpperArmHeight, UpperArmWidth))
    ensures r.LowerArm? ==> d.modelView == Mul(mv, ArmInstance(LowerArmHeight, LowerArmWidth))
  {
    match r
    case Sphere1(mode) => Draw(Layout.SphereMesh, mode, mv)
    case Cone1 => Draw(Layout.ConeMesh, Triangles, mv)
    case Cube1 => Draw(Layout.CubeMesh, Triangles, mv)
    case UpperArm =>
      var m := Mul(mv, ArmInstance(UpperArmHeight, UpperArmWidth));
      assert mv < m;
      Draw(Layout.CubeMesh, Triangles, m)
    case LowerArm =>
      var m := Mul(mv, ArmInstance(LowerArmHeight, LowerArmWidth));
      assert mv < m;
      Draw(Layout.CubeMesh, Triangles, m)
  }

  /** Translate(-viewer_pos) * RotateX(Theta[0]) * RotateY(Theta[1]) *
      RotateZ(Theta[2]) with viewer_pos = (0, 0, 2); `*` groups to the
      left. */
  function View(theta: seq<real>): Mat
    requires |theta| == 3
  {
    Mul(Mul(Mul(Translate(0.0, 0.0, -2.0), RotateX(theta[0])), RotateY(theta[1])), RotateZ(theta[2]))
  }

  /** A scene element: the local transform multiplied onto the restored
      viewing matrix, and the routine that draws it. */
  datatype Element = Element(local: Mat, routine: Routine)

  function TS(tx: real, ty: real, sx: real, sy: real, sz: real): Mat {
    Mul(Translate(tx, ty, 0.0), Scale(sx, sy, sz))
  }

  function TRS(tx: real, ty: real, sx: real, sy: real, sz: real): Mat {
    Mul(Mul(Translate(tx, ty, 0.0), RotateY(90.0)), Scale(sx, sy, sz))
  }

  /** The thirteen elements display() draws before the balls, in order:
      two wheels and two handlebars (sphere1), the frame and the front
      (upper_arm), two arms (lower_arm), the head (cone1), its ornament
      (sphere1), the torso and two legs (cube1). */
  const SceneElements: seq<Element> := [
    Element(TS(-3.0, 0.0, 0.7, 0.7, 1.0), Sphere1(Lines)),
    Element(TS(-3.0, 3.0, 0.7, 0.7, 1.0), Sphere1(Lines)),
    Element(TS(-0.5, 0.1, 1.5, 0.3, 1.0), Sphere1(Lines)),
    Element(TS(-0.5, 0.1, 0.3, 1.5, 1.0), Sphere1(Lines)),
    Element(TS(-3.0, 0.0, 0.3, 0.7, 1.0), UpperArm),
    Element(TS(-2.0, -0.1, 5.0, 0.05, 2.0), UpperArm),
    Element(TS(-0.5, 1.0, 0.5, 0.3, 1.0), LowerArm),
    Element(TS(-0.1, 0.8, 0.5, 0.3, 1.0), LowerArm),
    Element(TS(1.0, 2.2, 1.0, 1.0, 1.0), Cone1),
    Element(TS(1.3, 2.1, 1.3, 1.3, 1.0), Sphere1(Lines)),
    Element(TRS(-0.8, 2.3, 0.5, 1.0, 2.0), Cube1),
    Element(TRS(-2.1, 2.5, 0.2, 0.3, 2.0), Cube1),
    Element(TRS(-2.1, 2.0, 0.2, 0.3, 2.0), Cube1)
  ]

  /** What ball() submits once its statics have been advanced to b. */
  function BallDraw(view: Mat, b: Balls.Ball): Draw {
    Draw(Layout.SphereMesh, Lines, Mul(view, Translate(b.pos.x, b.pos.y, b.pos.z)))
  }

  /** display(): set model_view to the viewing matrix and save it; for
      each element restore it, multiply the local transform on and call
      the routine; then for each ball restore it, step the ball, multiply
      Translate(pos) on and draw a sphere in line mode.  Because every
      draw starts from the restored matrix, draw k depends only on the
      viewing matrix and element k, never on what was drawn before it. */
  method Display(theta: seq<real>, elements: seq<Element>, balls: seq<Balls.Ball>)
    returns (draws: seq<Draw>, next: seq<Balls.Ball>)
    requires |theta| == 3
    ensures |draws| == |elements| + |balls| && |next| == |balls|
    ensures forall k :: 0 <= k < |elements| ==>
              draws[k] == Submit(elements[k].routine, Mul(View(theta), elements[k].local))
    ensures forall k :: 0 <= k < |balls| ==> next[k] == Balls.Step(balls[k])
    ensures forall k :: 0 <= k < |balls| ==> draws[|elements| + k] == BallDraw(View(theta), next[k])
  {
    var modelView := View(theta);
    var saved := modelView;
    draws := [];
    var i := 0;
    while i < |elements|
      invariant 0 <= i <= |elements| && |draws| == i
      invariant forall k :: 0 <= k < i ==>
                  draws[k] == Submit(elements[k].routine, Mul(View(theta), elements[k].local))
    {
      modelView := saved;
      modelView := Mul(modelView, elements[i].local);
      draws := draws + [Submit(elements[i].routine, modelView)];
      i := i + 1;
    }
    next := [];
    var j := 0;
    while j < |balls|
      invariant 0 <= j <= |balls| && |next| == j && |draws| == |elements| + j
      invariant forall k :: 0 <= k < |elements| ==>
                  draws[k] == Submit(elements[k].routine, Mul(View(theta), elements[k].local))
      invariant forall k :: 0 <= k < j ==> next[k] == Balls.Step(balls[k])
      invariant forall k :: 0 <= k < j ==> draws[|elements| + k] == BallDraw(View(theta), next[k])
    {
      modelView := saved;
      var b := Balls.Step(balls[j]);
      modelView := Mul(modelView, Translate(b.pos.x, b.pos.y, b.pos.z));
      draws := draws + [Draw(Layout.SphereMesh, Lines, modelView)];
      next := next + [b];
      j := j + 1;
    }
  }

  /** The balls' statics after f frames. */
  function BallsAfter(f: nat): (r: seq<Balls.Ball>)
    ensures |r| == 10
  {
    seq(10, k requires 0 <= k < 10 => Balls.Run(Balls.InitialBalls[k], f))
  }

  /** One frame advances every ball's statics by one step, so the state
      display() leaves after frame f is the state after f + 1 frames. */
  lemma FrameAdvancesBalls(f: nat, k: int)
    requires 0 <= k < 10
    ensures Balls.Step(BallsAfter(f)[k]) == BallsAfter(f + 1)[k]
  {
  }

  /** In frame f (counting from 0) ball k is drawn translated to its
      start plus Travel(dt, f + 1) = dt^2 (f+1)(f+2)/2 times (3, 9, 0). */
  lemma BallDrawnAlongItsPath(theta: seq<real>, f: nat, k: int)
    requires |theta| == 3 && 0 <= k < 10
    ensures var b := Balls.InitialBalls[k];
            var s := Balls.Travel(b.dt, f + 1);
            BallDraw(View(theta), Balls.Step(BallsAfter(f)[k]))
              == Draw(Layout.SphereMesh, Lines, Mul(View(theta), Translate(-3.0 + 3.0 * s, b.pos.y + 9.0 * s, 0.0)))
  {
    FrameAdvancesBalls(f, k);
    Balls.BallsMoveAlongAcceleration(k, f + 1);
  }

  /** Of the 23 draws in a frame of the program's scene, the five scene
      spheres and the ten balls draw the sphere arrays in line mode, the
      head is the cone, and the remaining seven draw the cube arrays as
      triangles: the arms through their instance matrices, the torso and
      legs directly. */
  lemma SceneDrawKinds(theta: seq<real>, k: int)
    requires |theta| == 3
    requires 0 <= k < |SceneElements|
    ensures |SceneElements| == 13
    ensures var d := Submit(SceneElements[k].routine, Mul(View(theta), SceneElements[k].local));
            (d.mesh == Layout.SphereMesh <==> k in {0, 1, 2, 3, 9})
            && (d.mesh == Layout.ConeMesh <==> k == 8)
            && (d.mode == Lines <==> d.mesh == Layout.SphereMesh)
            && (d.modelView != Mul(View(theta), SceneElements[k].local) <==> 4 <= k < 8)
  {
  }
}
