/**
 * The exit-trajectory solver of `Actor.move` (space_invader/spaceship.py).
 *
 * An actor flies in a straight line until it is `MARGIN` pixels beyond its
 * parent's edge (or down to `min_y`). `move` works out, per axis, when the
 * actor leaves, picks the earlier axis, and builds the properties of a timed
 * animation: the centre coordinate(s) to reach and the duration. Coordinates
 * and times are reals; an axis that does not move has an infinite exit time.
 */
module Motion {
  import opened Results

  /** Guard added to every divisor so that a velocity of zero is never divided by. */
  const EPS: real := 0.00000001

  /** How far beyond the parent's edge an actor is sent, in pixels. */
  const MARGIN: real := 100.0

  /** An exit time: a finite number of time units, or never. */
  datatype Time = Finite(t: real) | Infinite

  /** Strict `<` between exit times, as Python compares a float with `math.inf`. */
  predicate Before(a: Time, b: Time) {
    match (a, b)
    case (Finite(x), Finite(y)) => x < y
    case (Finite(_), Infinite) => true
    case (Infinite, _) => false
  }

  /** The earlier of two exit times: an independent reference for the duration `move` picks. */
  function Earliest(a: Time, b: Time): Time {
    match (a, b)
    case (Infinite, _) => b
    case (_, Infinite) => a
    case (Finite(x), Finite(y)) => Finite(if x <= y then x else y)
  }

  /** The parent widget's size, the arena the actor flies across. */
  datatype Size = Size(width: real, height: real)

  /**
   * The actor widget: lower-left corner `(x, y)`, its own size `w` by `h`,
   * its velocity and the floor `minY` it is sent down to.
   */
  datatype Body = Body(x: real, y: real, w: real, h: real, vx: real, vy: real, minY: real)
  {
    function Right(): real { x + w }
    function Top(): real { y + h }
    function CenterX(): real { x + w / 2.0 }
    function CenterY(): real { y + h / 2.0 }
  }

  /** What `move` hands to the animation: target centre coordinates and a duration. */
  datatype Animation = Animation(centerX: Option<real>, centerY: Option<real>, duration: real)

  /** Why `move` raises: no parent widget, or reading `new_y` before it was assigned. */
  datatype MoveError = NoParent | UnboundTargetY

  function Abs(v: real): real { if v < 0.0 then -v else v }

  function Max(a: real, b: real): (r: real)
    ensures r >= a && r >= b && (r == a || r == b)
  {
    if a >= b then a else b
  }

  /** An axis moves when its speed exceeds `EPS`; otherwise it never leaves. */
  predicate Moving(v: real) { Abs(v) > EPS }

  /** The divisor `velocity + EPS`: never zero on a moving axis, and of the velocity's sign. */
  function Divisor(v: real): (d: real)
    requires Moving(v)
    ensures d != 0.0
    ensures d > 0.0 <==> v > 0.0
    ensures v > 0.0 ==> d > v
    ensures v < 0.0 ==> v < d < 0.0
  {
    v + EPS
  }

  /** Python's `math.copysign` on reals: the magnitude of `mag` with the sign of `sign`. */
  function CopySign(mag: real, sign: real): (r: real)
    ensures Abs(r) == Abs(mag)
    ensures sign >= 0.0 ==> r >= 0.0
    ensures sign < 0.0 ==> r <= 0.0
  {
    if sign < 0.0 then -Abs(mag) else Abs(mag)
  }

  /** The time at which a point starting at `from` with speed `v` is at `to`. */
  function CrossTime(from: real, to: real, v: real): (t: real)
    requires v != 0.0
    ensures from + t * v == to
  {
    (to - from) / v
  }

  /** Crossing towards a boundary ahead takes positive time. */
  lemma CrossTimePositive(from: real, to: real, v: real)
    requires v != 0.0
    ensures (v > 0.0 && from < to) || (v < 0.0 && from > to) ==> CrossTime(from, to, v) > 0.0
  {
  }

  /** Any time at or after the crossing finds the point at or past the boundary. */
  lemma PastBoundary(from: real, to: real, v: real, t: real)
    requires v != 0.0
    requires t >= CrossTime(from, to, v)
    ensures v > 0.0 ==> from + t * v >= to
    ensures v < 0.0 ==> from + t * v <= to
  {
  }

  /**
   * The exit time along one axis. `lo` and `hi` are the actor's low and high
   * edges, `far` the boundary beyond the high side of the arena and `near` the
   * one beyond the low side, `v` the velocity. The exit time is the later of
   * the instant the low edge reaches `far` and the instant the high edge
   * reaches `near`, both at speed `v + EPS`.
   */
  function AxisExit(lo: real, hi: real, far: real, near: real, v: real): (r: Time)
    ensures r.Infinite? <==> !Moving(v)
    ensures r.Finite? ==>
              && r.t >= CrossTime(lo, far, Divisor(v))
              && r.t >= CrossTime(hi, near, Divisor(v))
              && (r.t == CrossTime(lo, far, Divisor(v)) || r.t == CrossTime(hi, near, Divisor(v)))
    // a body moving at `v + EPS` from where it starts would be wholly past the
    // boundary it heads for at the exit time (the animation itself ends with
    // the centre at the target, which `Move` states)
    ensures r.Finite? && v > 0.0 ==> lo + r.t * Divisor(v) >= far
    ensures r.Finite? && v < 0.0 ==> hi + r.t * Divisor(v) <= near
    // an actor still short of the boundary it heads for takes positive time to leave
    ensures v > EPS && lo < far ==> r.Finite? && r.t > 0.0
    ensures v < -EPS && hi > near ==> r.Finite? && r.t > 0.0
  {
    if Moving(v) then
      var d := Divisor(v);
      var t1 := CrossTime(lo, far, d);
      var t2 := CrossTime(hi, near, d);
      var t := Max(t1, t2);
      PastBoundary(lo, far, d, t);
      PastBoundary(hi, near, d, t);
      CrossTimePositive(lo, far, d);
      CrossTimePositive(hi, near, d);
      Finite(t)
    else
      Infinite
  }

  /** `d_x`: time until the actor is `MARGIN` beyond the right or the left edge. */
  function ExitTimeX(b: Body, p: Size): (r: Time)
    ensures r.Infinite? <==> !Moving(b.vx)
  {
    AxisExit(b.x, b.Right(), p.width + MARGIN, -MARGIN, b.vx)
  }

  /** `d_y`: time until the actor is `MARGIN` above the top or down to `minY`. */
  function ExitTimeY(b: Body, p: Size): (r: Time)
    ensures r.Infinite? <==> !Moving(b.vy)
  {
    AxisExit(b.y, b.Top(), p.height + MARGIN, b.minY, b.vy)
  }

  /** `new_x`: the centre x to reach; past the right edge moving right, past the left moving left. */
  function TargetX(vx: real, width: real): (r: real)
    requires Moving(vx)
    ensures vx > 0.0 ==> r >= MARGIN
    ensures vx < 0.0 ==> -MARGIN <= r <= 0.0
    ensures width >= 0.0 ==> r == (if vx > 0.0 then width + MARGIN else -MARGIN)
  {
    Max(CopySign(width + MARGIN, vx), CopySign(MARGIN, vx))
  }

  /**
   * `new_y`: the centre y to reach; `MARGIN` above the top moving up, `minY`
   * moving down. Both come out as magnitudes, so a negative `minY` is
   * reflected to `-minY`.
   */
  function TargetY(vy: real, height: real, minY: real): (r: real)
    requires Moving(vy)
    ensures r >= 0.0
    ensures vy > 0.0 ==> r == Abs(height + MARGIN)
    ensures vy < 0.0 ==> r == Abs(minY)
    ensures vy > 0.0 && height >= -MARGIN ==> r == height + MARGIN
    ensures vy < 0.0 && minY >= 0.0 ==> r == minY
  {
    Max(CopySign(height + MARGIN, vy), CopySign(minY, -vy))
  }

  /** Where a coordinate starting at `c` with velocity `v` is after time `t`. */
  function Extrapolate(c: real, v: real, t: real): real {
    c + t * v
  }

  /** The actor lies strictly inside the arena extended by `MARGIN` (and above `minY`). */
  predicate Inside(b: Body, p: Size) {
    && -MARGIN < b.Right() && b.x < p.width + MARGIN
    && b.minY < b.Top() && b.y < p.height + MARGIN
  }

  /**
   * `Actor.move`, as written. It raises without a parent, and also when
   * neither axis moves: the final branch then reads `new_y`, which was never
   * assigned. Otherwise the axis with the strictly earlier exit time wins
   * (a tie goes to Y), its centre is sent to its target, and the other axis's
   * centre is extrapolated along the velocity when that axis moves at all.
   */
  function Move(b: Body, parent: Option<Size>): (r: Result<Animation, MoveError>)
    ensures r == Failure(NoParent) <==> parent.None?
    ensures r == Failure(UnboundTargetY) <==> parent.Some? && !Moving(b.vx) && !Moving(b.vy)
    ensures r.Success? ==>
              var p := parent.value;
              var a := r.value;
              && Finite(a.duration) == Earliest(ExitTimeX(b, p), ExitTimeY(b, p))
              && (a.centerX.Some? <==> Moving(b.vx))
              && (a.centerY.Some? <==> Moving(b.vy))
              && (Before(ExitTimeX(b, p), ExitTimeY(b, p)) ==>
                    Moving(b.vx) && a.centerX == Some(TargetX(b.vx, p.width)))
              && (!Before(ExitTimeX(b, p), ExitTimeY(b, p)) ==>
                    Moving(b.vy) && a.centerY == Some(TargetY(b.vy, p.height, b.minY)))
              && (Before(ExitTimeX(b, p), ExitTimeY(b, p)) && Moving(b.vy) ==>
                    a.centerY == Some(Extrapolate(b.CenterY(), b.vy, a.duration)))
              && (!Before(ExitTimeX(b, p), ExitTimeY(b, p)) && Moving(b.vx) ==>
                    a.centerX == Some(Extrapolate(b.CenterX(), b.vx, a.duration)))
    // equal exit times go to the Y branch
    ensures r.Success? && ExitTimeX(b, parent.value) == ExitTimeY(b, parent.value) ==>
              Moving(b.vy) && r.value.centerY == Some(TargetY(b.vy, parent.value.height, b.minY))
    ensures r.Success? && Inside(b, parent.value) ==> r.value.duration > 0.0
  {
    if parent.None? then Failure(NoParent)
    else
      var p := parent.value;
      var dx := ExitTimeX(b, p);
      var dy := ExitTimeY(b, p);
      if Before(dx, dy) then
        Success(Animation(
                  Some(TargetX(b.vx, p.width)),
                  if dy.Finite? then Some(Extrapolate(b.CenterY(), b.vy, dx.t)) else None,
                  dx.t))
      else if dy.Infinite? then
        Failure(UnboundTargetY)
      else
        Success(Animation(
                  if dx.Finite? then Some(Extrapolate(b.CenterX(), b.vx, dy.t)) else None,
                  Some(TargetY(b.vy, p.height, b.minY)),
                  dy.t))
  }

  /** What a corrected `move` schedules: an animation, or nothing for an actor at rest. */
  datatype Plan = Animate(animation: Animation) | Rest

  /**
   * `move` with the stationary case handled: an actor whose velocity is
   * within `EPS` on both axes never leaves, so it is left where it is
   * instead of raising. Every other input is treated exactly as `Move`.
   */
  function MoveOrRest(b: Body, parent: Option<Size>): (r: Result<Plan, MoveError>)
    ensures r.Failure? <==> parent.None?
    ensures r == Success(Rest) <==> parent.Some? && !Moving(b.vx) && !Moving(b.vy)
    ensures r.Success? && r.value.Animate? ==> Move(b, parent) == Success(r.value.animation)
    ensures Move(b, parent).Success? ==> r == Success(Animate(Move(b, parent).value))
  {
    match Move(b, parent)
    case Success(a) => Success(Animate(a))
    case Failure(NoParent) => Failure(NoParent)
    case Failure(UnboundTargetY) => Success(Rest)
  }

  /** A still actor with a parent: `Move` raises, `MoveOrRest` leaves it at rest. */
  lemma StillActorCrashes()
    ensures var b := Body(10.0, 20.0, 5.0, 5.0, 0.0, 0.0, 0.0);
            && Move(b, Some(Size(800.0, 600.0))) == Failure(UnboundTargetY)
            && MoveOrRest(b, Some(Size(800.0, 600.0))) == Success(Rest)
  {
  }
}
