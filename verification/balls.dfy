/** The ten "falling balls": each keeps a static position, velocity and
    acceleration and advances them by one explicit Euler step per frame,
    velocity first, then position with the new velocity. */
module Balls {

  datatype Vec3 = Vec3(x: real, y: real, z: real)

  function Add(a: Vec3, b: Vec3): Vec3 {
    var Vec3(a1, a2, a3) := a;
    var Vec3(b1, b2, b3) := b;
    Vec3(a1 + b1, a2 + b2, a3 + b3)
  }

  function Times(k: real, a: Vec3): Vec3 {
    var Vec3(a1, a2, a3) := a;
    Vec3(k * a1, k * a2, k * a3)
  }

  /** A ball's static state and its constant deltaT. */
  datatype Ball = Ball(pos: Vec3, vel: Vec3, acc: Vec3, dt: real)

  /** One frame: vel += acc * deltaT; pos += vel * deltaT.  The gravity
      update of acc is commented out, so acc never changes. */
  function Step(b: Ball): (r: Ball)
    ensures r.acc == b.acc && r.dt == b.dt
  {
    var vel := Add(b.vel, Times(b.dt, b.acc));
    Ball(Add(b.pos, Times(b.dt, vel)), vel, b.acc, b.dt)
  }

  /** The state after n frames. */
  function Run(b: Ball, n: nat): Ball
    decreases n
  {
    if n == 0 then b else Step(Run(b, n - 1))
  }

  /** The n-th triangular number 0 + 1 + ... + n, that is n(n+1)/2. */
  function Tri(n: nat): nat {
    if n == 0 then 0 else Tri(n - 1) + n
  }

  lemma {:induction false} TriFormula(n: nat)
    ensures 2 * Tri(n) == n * (n + 1)
  {
    if n > 0 {
      TriFormula(n - 1);
    }
  }

  /** The coefficients of the motion after n frames: the velocity gains
      Speed(dt, n) times the acceleration, and the position Speed(dt, n)
      times the initial velocity plus Travel(dt, n) times the acceleration.
      Each frame adds dt to Speed and dt times the new Speed to Travel. */
  function Speed(dt: real, n: nat): real {
    if n == 0 then 0.0 else Speed(dt, n - 1) + dt
  }

  function Travel(dt: real, n: nat): real {
    if n == 0 then 0.0 else Travel(dt, n - 1) + dt * Speed(dt, n)
  }

  /** In closed form Speed(dt, n) = n dt and Travel(dt, n) = dt^2 n(n+1)/2. */
  lemma {:induction false} CoefficientsClosedForm(dt: real, n: nat)
    ensures Speed(dt, n) == (n as real) * dt
    ensures Travel(dt, n) == dt * dt * (Tri(n) as real)
    decreases n
  {
    if n > 0 {
      CoefficientsClosedForm(dt, n - 1);
      var c := dt * dt;
      var t := Tri(n - 1) as real;
      var m := n as real;
      assert Tri(n) as real == t + m;
      assert dt * (m * dt) == c * m;
      assert c * (t + m) == c * t + c * m;
    }
  }

  /** The closed form: position and velocity after coefficients s (speed)
      and t (travel) from the state (p0, v0) under acceleration a. */
  function VelocityAt(v0: Vec3, a: Vec3, s: real): Vec3 {
    Add(v0, Times(s, a))
  }

  function PositionAt(p0: Vec3, v0: Vec3, a: Vec3, s: real, t: real): Vec3 {
    Add(Add(p0, Times(s, v0)), Times(t, a))
  }

  /** The vector identities the step needs, each checked coordinate by
      coordinate. */
  lemma AddTimesSameVector(x: real, y: real, a: Vec3)
    ensures Add(Times(x, a), Times(y, a)) == Times(x + y, a)
  {
    var Vec3(a1, a2, a3) := a;
  }

  lemma AddAssociates(u: Vec3, v: Vec3, w: Vec3)
    ensures Add(Add(u, v), w) == Add(u, Add(v, w))
  {
    var Vec3(u1, u2, u3) := u;
    var Vec3(v1, v2, v3) := v;
    var Vec3(w1, w2, w3) := w;
  }

  lemma TimesDistributes(k: real, u: Vec3, s: real, a: Vec3)
    ensures Times(k, Add(u, Times(s, a))) == Add(Times(k, u), Times(k * s, a))
  {
    var Vec3(u1, u2, u3) := u;
    var Vec3(a1, a2, a3) := a;
  }

  lemma Regroup(p: Vec3, x: Vec3, y: Vec3, z: Vec3, w: Vec3)
    ensures Add(Add(Add(p, x), y), Add(z, w)) == Add(Add(p, Add(x, z)), Add(y, w))
  {
    var Vec3(p1, p2, p3) := p;
    var Vec3(x1, x2, x3) := x;
    var Vec3(y1, y2, y3) := y;
    var Vec3(z1, z2, z3) := z;
    var Vec3(w1, w2, w3) := w;
  }

  /** One Euler step from a state on the closed-form trajectory advances
      its coefficients: s by dt, t by dt times the new s. */
  lemma StepOnTrajectory(prev: Ball, p0: Vec3, v0: Vec3, dt: real, s0: real, t0: real, s1: real, t1: real)
    requires prev.dt == dt
    requires prev.vel == VelocityAt(v0, prev.acc, s0) && prev.pos == PositionAt(p0, v0, prev.acc, s0, t0)
    requires s1 == s0 + dt && t1 == t0 + dt * s1
    ensures Step(prev).vel == VelocityAt(v0, prev.acc, s1)
    ensures Step(prev).pos == PositionAt(p0, v0, prev.acc, s1, t1)
  {
    var a := prev.acc;
    calc {
      Step(prev).vel;
      Add(Add(v0, Times(s0, a)), Times(dt, a));
      { AddAssociates(v0, Times(s0, a), Times(dt, a)); }
      Add(v0, Add(Times(s0, a), Times(dt, a)));
      { AddTimesSameVector(s0, dt, a); }
      VelocityAt(v0, a, s1);
    }
    calc {
      Step(prev).pos;
      Add(Add(Add(p0, Times(s0, v0)), Times(t0, a)), Times(dt, Add(v0, Times(s1, a))));
      { TimesDistributes(dt, v0, s1, a); }
      Add(Add(Add(p0, Times(s0, v0)), Times(t0, a)), Add(Times(dt, v0), Times(dt * s1, a)));
      { Regroup(p0, Times(s0, v0), Times(t0, a), Times(dt, v0), Times(dt * s1, a)); }
      Add(Add(p0, Add(Times(s0, v0), Times(dt, v0))), Add(Times(t0, a), Times(dt * s1, a)));
      { AddTimesSameVector(s0, dt, v0); AddTimesSameVector(t0, dt * s1, a); }
      PositionAt(p0, v0, a, s1, t1);
    }
  }

  /** After n frames from any state, acceleration and deltaT are unchanged
      and velocity and position follow the closed form. */
  lemma {:induction false} RunClosedForm(b: Ball, n: nat)
    ensures Run(b, n).acc == b.acc && Run(b, n).dt == b.dt
    ensures Run(b, n).vel == VelocityAt(b.vel, b.acc, Speed(b.dt, n))
    ensures Run(b, n).pos == PositionAt(b.pos, b.vel, b.acc, Speed(b.dt, n), Travel(b.dt, n))
    decreases n
  {
    if n == 0 {
      var Vec3(a1, a2, a3) := b.acc;
      var Vec3(u1, u2, u3) := b.vel;
      assert VelocityAt(b.vel, b.acc, 0.0) == b.vel;
      assert PositionAt(b.pos, b.vel, b.acc, 0.0, 0.0) == b.pos;
    } else {
      RunClosedForm(b, n - 1);
      var prev := Run(b, n - 1);
      StepOnTrajectory(prev, b.pos, b.vel, b.dt, Speed(b.dt, n - 1), Travel(b.dt, n - 1), Speed(b.dt, n), Travel(b.dt, n));
    }
  }

  /** Starting at rest, after n frames vel = n dt acc and
      pos = pos0 + dt^2 n(n+1)/2 acc: the ball moves along its
      acceleration vector. */
  lemma FromRest(b: Ball, n: nat)
    requires b.vel == Vec3(0.0, 0.0, 0.0)
    ensures Run(b, n).acc == b.acc && Run(b, n).dt == b.dt
    ensures Run(b, n).vel == Times(Speed(b.dt, n), b.acc)
    ensures Run(b, n).pos == Add(b.pos, Times(Travel(b.dt, n), b.acc))
  {
    RunClosedForm(b, n);
    var s := Speed(b.dt, n);
    var Vec3(q1, q2, q3) := b.pos;
    assert VelocityAt(b.vel, b.acc, s) == Times(s, b.acc);
    assert Add(b.pos, Times(s, b.vel)) == b.pos;
  }

  /** One frame from rest moves a ball by dt^2 times its acceleration. */
  lemma OneFrameFromRest(b: Ball)
    requires b.vel == Vec3(0.0, 0.0, 0.0)
    ensures Run(b, 1).vel == Times(b.dt, b.acc)
    ensures Run(b, 1).pos == Add(b.pos, Times(b.dt * b.dt, b.acc))
  {
    FromRest(b, 1);
    assert Speed(b.dt, 1) == b.dt;
  }

  /** The statics of ball(), ball2(), ..., ball10(): ball() starts at
      (-3, 2, 0), the others at (-3, 1, 0); all at rest with acceleration
      (3, 9, 0); each with its own deltaT. */
  const Deltas: seq<real> := [0.001, 0.003, 0.005, 0.007, 0.0001, 0.0003, 0.0005, 0.0009, 0.0009, 0.0009]

  function InitialBall(k: int): Ball
    requires 0 <= k < 10
  {
    Ball(if k == 0 then Vec3(-3.0, 2.0, 0.0) else Vec3(-3.0, 1.0, 0.0),
         Vec3(0.0, 0.0, 0.0), Vec3(3.0, 9.0, 0.0), Deltas[k])
  }

  const InitialBalls: seq<Ball> := seq(10, k requires 0 <= k < 10 => InitialBall(k))

  /** Every ball moves along the fixed direction (3, 9, 0) from its start:
      after n frames it has travelled Travel(dt, n) = dt^2 n(n+1)/2 times
      that vector and never moves in z. */
  lemma BallsMoveAlongAcceleration(k: int, n: nat)
    requires 0 <= k < 10
    ensures var b := InitialBalls[k];
            var s := Travel(b.dt, n);
            Run(b, n).pos == Vec3(-3.0 + 3.0 * s, b.pos.y + 9.0 * s, 0.0)
  {
    var b := InitialBalls[k];
    assert b == InitialBall(k);
    FromRest(b, n);
    Displacement(b.pos, Travel(b.dt, n));
  }

  /** A displacement of s times (3, 9, 0), coordinate by coordinate. */
  lemma Displacement(p: Vec3, s: real)
    ensures Add(p, Times(s, Vec3(3.0, 9.0, 0.0))) == Vec3(p.x + 3.0 * s, p.y + 9.0 * s, p.z)
  {
    var Vec3(q1, q2, q3) := p;
  }

  /** ball()'s first frame: velocity (0.003, 0.009, 0) and position
      (-2.999997, 2.000009, 0). */
  lemma FirstBallFirstFrame()
    ensures Run(InitialBalls[0], 1) == Ball(Vec3(-2.999997, 2.000009, 0.0), Vec3(0.003, 0.009, 0.0), Vec3(3.0, 9.0, 0.0), 0.001)
  {
    OneFrameFromRest(InitialBalls[0]);
  }
}
