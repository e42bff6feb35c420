/** The GLUT callbacks that change program state: mouse() and idle() turn
    the rotation angles Theta[0..2] in degrees, wrapping them back into
    [0, 360], and menu() picks the joint Axis1 that mouse clicks also turn,
    or quits.  Angles are reals; GLfloat rounding is not modelled. */
module Input {

  /** GLUT_LEFT_BUTTON, GLUT_MIDDLE_BUTTON, GLUT_RIGHT_BUTTON and
      GLUT_DOWN.  The buttons coincide with Xaxis, Yaxis and Zaxis, so
      button b turns Theta[b]. */
  const LeftButton := 0
  const MiddleButton := 1
  const RightButton := 2
  const Down := 0

  /** The menu's Quit entry. */
  const Quit := 4

  /** The menu entries registered for the joint: Base, LowerArm, UpperArm. */
  const JointEntries: set<int> := {0, 1, 2}

  /** Theta and Axis1. */
  datatype Controls = Controls(theta: seq<real>, axis1: int)

  predicate InRange(a: real) {
    0.0 <= a <= 360.0
  }

  /** Every angle in [0, 360] and Axis1 a valid index into Theta. */
  predicate Valid(c: Controls) {
    |c.theta| == 3 && 0 <= c.axis1 < 3 && forall k :: 0 <= k < 3 ==> InRange(c.theta[k])
  }

  /** Theta = {0, 0, 0}, Axis1 = Base. */
  const Initial := Controls([0.0, 0.0, 0.0], 0)

  /** r is a turned by d degrees, up to one full turn either way. */
  predicate Turned(a: real, r: real, d: real) {
    r == a + d || r == a + d - 360.0 || r == a + d + 360.0
  }

  /** a += d; if (a > 360) a -= 360. */
  function WrapUp(a: real, d: real): (r: real)
    ensures r == a + d || r == a + d - 360.0
    ensures InRange(a) && 0.0 <= d <= 360.0 ==> InRange(r)
  {
    if a + d > 360.0 then a + d - 360.0 else a + d
  }

  /** a -= d; if (a < 0) a += 360. */
  function WrapDown(a: real, d: real): (r: real)
    ensures r == a - d || r == a - d + 360.0
    ensures InRange(a) && 0.0 <= d <= 360.0 ==> InRange(r)
  {
    if a - d < 0.0 then a - d + 360.0 else a - d
  }

  /** The net turn a mouse event gives Theta[k]: 10.5 to the axis of the
      pressed button, and 5 more (left) or 5 less (right) to Theta[Axis1]. */
  function MouseTurn(button: int, state: int, axis1: int, k: int): real {
    if state != Down then 0.0
    else
      (if k == button && 0 <= button < 3 then 10.5 else 0.0)
      + (if button == LeftButton && k == axis1 then 5.0 else 0.0)
      - (if button == RightButton && k == axis1 then 5.0 else 0.0)
  }

  /** mouse(button, state): on a press, the switch turns the axis of the
      button by 10.5; then a left press turns Theta[Axis1] by +5 and a right
      press by -5, each with its own wrap.  Other buttons and releases
      change nothing. */
  function Mouse(c: Controls, button: int, state: int): (r: Controls)
    requires |c.theta| == 3 && 0 <= c.axis1 < 3
    ensures r.axis1 == c.axis1 && |r.theta| == 3
    ensures state != Down ==> r == c
    ensures forall k :: 0 <= k < 3 && k != button && k != c.axis1 ==> r.theta[k] == c.theta[k]
    ensures Valid(c) ==> Valid(r)
    ensures Valid(c) ==> forall k :: 0 <= k < 3 ==>
              Turned(c.theta[k], r.theta[k], MouseTurn(button, state, c.axis1, k))
  {
    if state != Down then c
    else
      var t := c.theta;
      var t1 := if 0 <= button < 3 then t[button := WrapUp(t[button], 10.5)] else t;
      var t2 := if button == LeftButton then t1[c.axis1 := WrapUp(t1[c.axis1], 5.0)]
                else if button == RightButton then t1[c.axis1 := WrapDown(t1[c.axis1], 5.0)]
                else t1;
      Controls(t2, c.axis1)
  }

  /** idle(): Theta[Zaxis] += 0.07 with the wrap above 360. */
  function Idle(c: Controls): (r: Controls)
    requires |c.theta| == 3
    ensures r.axis1 == c.axis1 && |r.theta| == 3
    ensures r.theta[0] == c.theta[0] && r.theta[1] == c.theta[1]
    ensures Turned(c.theta[2], r.theta[2], 0.07)
    ensures Valid(c) ==> Valid(r)
  {
    Controls(c.theta[2 := WrapUp(c.theta[2], 0.07)], c.axis1)
  }

  datatype MenuResult = Exit | Continue(controls: Controls)

  /** menu(option): Quit exits, any other value becomes Axis1 unchecked. */
  function Menu(c: Controls, option: int): (r: MenuResult)
    ensures r.Exit? <==> option == Quit
    ensures r.Continue? ==> r.controls.theta == c.theta && r.controls.axis1 == option
  {
    if option == Quit then Exit else Continue(c.(axis1 := option))
  }

  /** Every entry the program registers either quits or leaves Axis1 a
      valid index into Theta; an unregistered value would not. */
  lemma RegisteredEntriesKeepAxisValid(c: Controls, option: int)
    requires Valid(c)
    ensures option in JointEntries + {Quit} ==> Menu(c, option).Exit? || Valid(Menu(c, option).controls)
    ensures option !in JointEntries + {Quit} ==> !Valid(Menu(c, option).controls)
  {
  }

  /** The events the callbacks receive.  Middle clicks go to the menu,
      which is attached to the middle button, and keyboard and reshape
      events do not change this state. */
  datatype Event = MouseEvent(button: int, state: int) | IdleEvent | MenuEvent(option: int)

  predicate Registered(e: Event) {
    e.MenuEvent? ==> e.option in JointEntries + {Quit}
  }

  /** One callback: a registered event from a valid state either quits
      (exactly on the Quit entry) or leaves a valid state. */
  function Handle(c: Controls, e: Event): (r: MenuResult)
    requires Valid(c) && Registered(e)
    ensures r.Continue? ==> Valid(r.controls)
    ensures r.Exit? <==> e == MenuEvent(Quit)
  {
    match e
    case MouseEvent(button, state) => Continue(Mouse(c, button, state))
    case IdleEvent => Continue(Idle(c))
    case MenuEvent(option) => RegisteredEntriesKeepAxisValid(c, option); Menu(c, option)
  }

  /** The state after a run of events: Exit if the program quit, the
      controls otherwise.  It quits exactly when Quit was chosen, and until
      then every state is valid. */
  function Run(c: Controls, es: seq<Event>): (r: MenuResult)
    requires Valid(c) && forall i :: 0 <= i < |es| ==> Registered(es[i])
    ensures r.Continue? ==> Valid(r.controls)
    ensures r.Exit? <==> MenuEvent(Quit) in es
    decreases |es|
  {
    if es == [] then Continue(c)
    else
      match Handle(c, es[0])
      case Exit => Exit
      case Continue(next) =>
        var r := Run(next, es[1..]);
        assert es == [es[0]] + es[1..];
        r
  }

  /** From the program's start, any run of registered events keeps every
      angle in [0, 360] and Axis1 a valid joint until a Quit. */
  lemma AnglesStayInRange(es: seq<Event>)
    requires forall i :: 0 <= i < |es| ==> Registered(es[i])
    ensures Valid(Initial)
    ensures Run(Initial, es).Continue? ==>
              (0 <= Run(Initial, es).controls.axis1 < 3
               && forall k :: 0 <= k < 3 ==> InRange(Run(Initial, es).controls.theta[k]))
    ensures Run(Initial, es).Exit? <==> MenuEvent(Quit) in es
  {
  }
}
