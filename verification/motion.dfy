/** The geometry of the pet's wandering: screen coordinates, the facing
    chosen for a new target, and the integer step taken toward it. */
module Motion {

  datatype Point = Point(x: int, y: int)
  datatype Size = Size(width: int, height: int)

  /** The four rows of the sprite sheet. */
  datatype Direction = Front | Left | Right | Back

  /** `WINDOW_WIDTH` and `WINDOW_HEIGHT`: the pet window, bubble included. */
  const WindowWidth: int := 120
  const WindowHeight: int := 160
  /** `move_step`: pixels walked per wander tick. */
  const MoveStep: int := 2

  /** `current_direction` as the source numbers it (the sprite sheet row). */
  function DirectionCode(d: Direction): (c: nat)
    ensures c <= 3
    ensures d == Front <==> c == 0
    ensures d == Left <==> c == 1
    ensures d == Right <==> c == 2
  {
    match d
    case Front => 0
    case Left => 1
    case Right => 2
    case Back => 3
  }

  function Abs(n: int): nat {
    if n < 0 then -n else n
  }

  function Sub(a: Point, b: Point): Point {
    Point(a.x - b.x, a.y - b.y)
  }

  /** `QPoint.manhattanLength()`. */
  function Manhattan(p: Point): nat {
    Abs(p.x) + Abs(p.y)
  }

  /** Squared Euclidean distance between two points. */
  function Dist2(a: Point, b: Point): nat {
    var dx := b.x - a.x;
    var dy := b.y - a.y;
    dx * dx + dy * dy
  }

  /** The screen can hold the window, so `random.randint(0, w - 120)` and
      `random.randint(0, h - 160)` have a non-empty range. */
  predicate Fits(screen: Size) {
    screen.width >= WindowWidth && screen.height >= WindowHeight
  }

  /** A window position that keeps the whole window on the screen. */
  predicate OnScreen(p: Point, screen: Size) {
    0 <= p.x <= screen.width - WindowWidth && 0 <= p.y <= screen.height - WindowHeight
  }

  /** The facing chosen for a target at offset `(dx, dy)`: the dominant axis
      decides, a tie goes to the vertical axis, and a target below
      (`dy > 0`) faces the viewer. */
  function Facing(dx: int, dy: int): (d: Direction)
    ensures d == Right <==> Abs(dx) > Abs(dy) && dx > 0
    ensures d == Left <==> Abs(dx) > Abs(dy) && dx <= 0
    ensures d == Front <==> Abs(dx) <= Abs(dy) && dy > 0
    ensures d == Back <==> Abs(dx) <= Abs(dy) && dy <= 0
  {
    if Abs(dx) > Abs(dy) then (if dx > 0 then Right else Left)
    else (if dy > 0 then Front else Back)
  }

  /** Distinct facings use distinct sprite rows. */
  lemma DirectionCodeInjective(a: Direction, b: Direction)
    ensures DirectionCode(a) == DirectionCode(b) ==> a == b
  {
  }

  /** The row number the walk picks, written as the program computes it
      from the offsets to the new target. */
  lemma FacingCode(dx: int, dy: int)
    ensures DirectionCode(Facing(dx, dy)) ==
              if Abs(dx) > Abs(dy) then (if dx > 0 then 2 else 1)
              else (if dy > 0 then 0 else 3)
  {
  }

  /** If 3 divides `b * b` then 3 divides `b`. */
  lemma ThreeDividesSquare(b: int, k: int)
    requires b * b == 3 * k
    ensures b % 3 == 0
  {
    var q := b / 3;
    var m := b % 3;
    assert b == 3 * q + m;
    if m != 0 {
      SquareOfThreeQPlusM(q, m);
      assert false;
    }
  }

  lemma SquareOfThreeQPlusM(q: int, m: int)
    ensures (3 * q + m) * (3 * q + m) == 3 * (3 * q * q + 2 * q * m) + m * m
  {
  }

  /** Three times a non-zero square is never a square (the square root of 3
      is irrational), shown by descent on `|a|`. */
  lemma {:induction false} ThreeSquaresNotSquare(a: int, b: int)
    requires a != 0
    ensures 3 * a * a != b * b
    decreases Abs(a)
  {
    if 3 * a * a == b * b {
      ThreeDividesSquare(b, a * a);
      var q := b / 3;
      assert b == 3 * q;
      assert b * b == 9 * (q * q);
      assert a * a == 3 * (q * q);
      ThreeDividesSquare(a, q * q);
      var e := a / 3;
      assert a == 3 * e;
      assert a * a == 9 * (e * e);
      assert 3 * e * e == q * q;
      assert e != 0 && Abs(e) < Abs(a);
      ThreeSquaresNotSquare(e, q);
      assert false;
    }
  }

  /** `int(move_step * d / dist)` with `dist = sqrt(d*d + o*o)`: Python's
      truncation toward zero of the real quotient. The first two `ensures`
      pin `v` down as that truncation without any square root:
      `|v| <= |2d/dist| < |v| + 1`, with the sign of `d`. */
  function StepComponent(d: int, o: int): (v: int)
    requires d * d + o * o >= MoveStep * MoveStep
    ensures v * v * (d * d + o * o) <= MoveStep * MoveStep * d * d
    ensures MoveStep * MoveStep * d * d < (Abs(v) + 1) * (Abs(v) + 1) * (d * d + o * o)
    ensures v == 0 || (v > 0 <==> d > 0)
    ensures Abs(v) <= MoveStep && Abs(v) <= Abs(d)
  {
    if d == 0 then
      0
    else if o == 0 then
      (if d > 0 then MoveStep else -MoveStep)
    else if 3 * d * d > o * o then
      (if d > 0 then 1 else -1)
    else
      ThreeSquaresNotSquare(d, o);
      0
  }

  /** The position after one wander tick toward `target`, when the target is
      not within `move_step`. */
  function StepToward(pos: Point, target: Point): (r: Point)
    requires Dist2(pos, target) >= MoveStep * MoveStep
  {
    var dx := target.x - pos.x;
    var dy := target.y - pos.y;
    Point(pos.x + StepComponent(dx, dy), pos.y + StepComponent(dy, dx))
  }

  /** A step never overshoots on either axis and strictly closes the
      distance, so the walk reaches its target. */
  lemma StepTowardProgress(pos: Point, target: Point)
    requires Dist2(pos, target) >= MoveStep * MoveStep
    ensures var r := StepToward(pos, target);
            && Abs(target.x - r.x) <= Abs(target.x - pos.x)
            && Abs(target.y - r.y) <= Abs(target.y - pos.y)
            && Dist2(r, target) < Dist2(pos, target)
  {
    var dx := target.x - pos.x;
    var dy := target.y - pos.y;
    var vx := StepComponent(dx, dy);
    var vy := StepComponent(dy, dx);
    SomeComponentMoves(dx, dy);
    ComponentShrinks(dx, dy);
    ComponentShrinks(dy, dx);
    var ex := dx - vx;
    var ey := dy - vy;
    SquareMonotone(ex, dx);
    SquareMonotone(ey, dy);
    if vx != 0 {
      StrictSquareMonotone(ex, dx);
    } else {
      StrictSquareMonotone(ey, dy);
    }
    var r := StepToward(pos, target);
    assert target.x - r.x == ex && target.y - r.y == ey;
  }

  /** What is left of an offset after its step component is no larger,
      and strictly smaller when the component is not zero. */
  lemma ComponentShrinks(d: int, o: int)
    requires d * d + o * o >= MoveStep * MoveStep
    ensures Abs(d - StepComponent(d, o)) <= Abs(d)
    ensures StepComponent(d, o) != 0 ==> Abs(d - StepComponent(d, o)) < Abs(d)
  {
  }

  /** Away from the target at least one component of the step is not zero. */
  lemma SomeComponentMoves(dx: int, dy: int)
    requires dx * dx + dy * dy >= MoveStep * MoveStep
    ensures StepComponent(dx, dy) != 0 || StepComponent(dy, dx) != 0
  {
    if Abs(dx) >= Abs(dy) {
      SquareMonotone(dy, dx);
      assert dx != 0;
      assert 3 * dx * dx > dy * dy || dy == 0;
    } else {
      SquareMonotone(dx, dy);
      assert dy != 0;
      assert 3 * dy * dy > dx * dx || dx == 0;
    }
  }

  lemma SquareMonotone(a: int, b: int)
    requires Abs(a) <= Abs(b)
    ensures a * a <= b * b
  {
    SquareOfAbs(a);
    SquareOfAbs(b);
    ProductMonotone(Abs(a), Abs(a), Abs(b));
    ProductMonotone(Abs(b), Abs(a), Abs(b));
  }

  lemma StrictSquareMonotone(a: int, b: int)
    requires Abs(a) < Abs(b)
    ensures a * a < b * b
  {
    SquareOfAbs(a);
    SquareOfAbs(b);
    ProductMonotone(Abs(a), Abs(a), Abs(b));
    assert Abs(a) * Abs(b) < Abs(b) * Abs(b);
  }

  lemma SquareOfAbs(a: int)
    ensures a * a == Abs(a) * Abs(a)
  {
    if a < 0 {
      assert Abs(a) == -a;
    }
  }

  /** Multiplying by a non-negative factor keeps the order. */
  lemma ProductMonotone(k: nat, x: int, y: int)
    requires x <= y
    ensures k * x <= k * y
  {
  }

  /** The facing chosen for a target is the way the first step toward it
      goes: right and left move along x, front (toward the viewer) moves
      down the screen, back moves up. */
  lemma FacingMatchesStep(pos: Point, target: Point)
    requires Dist2(pos, target) >= MoveStep * MoveStep
    ensures var d := Facing(target.x - pos.x, target.y - pos.y);
            var r := StepToward(pos, target);
            && (d == Right ==> r.x > pos.x)
            && (d == Left ==> r.x < pos.x)
            && (d == Front ==> r.y > pos.y)
            && (d == Back ==> r.y < pos.y)
  {
    var dx := target.x - pos.x;
    var dy := target.y - pos.y;
    if Abs(dx) > Abs(dy) {
      DominantMoves(dx, dy);
    } else {
      assert dy != 0;
      DominantMoves(dy, dx);
    }
  }

  /** The component along the dominant (or tied) axis is never zero. */
  lemma DominantMoves(d: int, o: int)
    requires d * d + o * o >= MoveStep * MoveStep
    requires d != 0 && Abs(o) <= Abs(d)
    ensures StepComponent(d, o) != 0
  {
    SquareMonotone(o, d);
    assert 3 * d * d > o * o;
  }

  /** A step keeps the window inside the box spanned by the old position and
      the target, so it stays on screen when both ends are. */
  lemma StepTowardStaysOnScreen(pos: Point, target: Point, screen: Size)
    requires Dist2(pos, target) >= MoveStep * MoveStep
    requires OnScreen(pos, screen) && OnScreen(target, screen)
    ensures OnScreen(StepToward(pos, target), screen)
  {
  }
}
