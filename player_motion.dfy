/** The player's kinematics, axis by axis: key precedence, acceleration with
    a speed clamp, decay without input, the inelastic bounce off the
    movement bounds, and the mouse-follow step of debug mode. */
module PlayerMotion {
  import opened Geometry

  const Radius: real := 10.0
  const CollectRadius: real := 40.0
  const PulseRange: real := 8.0
  const MaxSpeed: real := 300.0
  const Acceleration: real := 2000.0
  const Deceleration: real := 0.92
  const BounceFactor: real := 0.7
  const MouseFollowSpeed: real := 0.1

  /** The rectangle the player's centre is kept in. */
  datatype Bounds = Bounds(minX: real, maxX: real, minY: real, maxY: real)
  {
    predicate NonEmpty() {
      minX <= maxX && minY <= maxY
    }

    predicate Contains(x: real, y: real) {
      minX <= x <= maxX && minY <= y <= maxY
    }
  }

  /** The movement bounds: one radius inside the scene on the left, right
      and top, and one radius above the wall at the bottom. */
  function MovementBounds(width: real, height: real, roadHeight: real, wallHeight: real): (b: Bounds)
    ensures b.minX == Radius && b.maxX == width - Radius
    ensures b.minY == Radius && b.maxY == height - roadHeight - wallHeight - Radius
    ensures b.NonEmpty() <==> width >= 2.0 * Radius && height - roadHeight - wallHeight >= 2.0 * Radius
  {
    Bounds(Radius, width - Radius, Radius, height - roadHeight - wallHeight - Radius)
  }

  /** The pulsing collection radius, for a pulse factor in [0, 1]. */
  function CollectionRadius(pulse: real): (r: real)
    requires 0.0 <= pulse <= 1.0
    ensures CollectRadius <= r <= CollectRadius + PulseRange
  {
    CollectRadius + PulseRange * pulse
  }

  /** The target velocity on one axis: the positive key wins over the
      negative one, and no key means no target. */
  function TargetAxis(negativeKey: bool, positiveKey: bool): (r: real)
    ensures positiveKey ==> r == MaxSpeed
    ensures !positiveKey && negativeKey ==> r == -MaxSpeed
    ensures !positiveKey && !negativeKey ==> r == 0.0
  {
    var t := if negativeKey then -MaxSpeed else 0.0;
    if positiveKey then MaxSpeed else t
  }

  /** One axis of the keyboard velocity update. With a target the velocity
      accelerates toward it and its magnitude is clamped to `MaxSpeed`,
      keeping its sign; without one it decays by `Deceleration`. */
  function AxisVelocity(v: real, target: real, dt: real): (r: real)
    ensures target != 0.0 ==> Abs(r) <= MaxSpeed
    ensures target != 0.0 ==> Sign(r) == Sign(v + Sign(target) * Acceleration * dt)
    ensures target != 0.0 && Abs(v + Sign(target) * Acceleration * dt) <= MaxSpeed ==>
      r == v + Sign(target) * Acceleration * dt
    ensures target == 0.0 ==> r == v * Deceleration && Abs(r) <= Abs(v)
  {
    if target != 0.0 then
      var u := v + Sign(target) * Acceleration * dt;
      Sign(u) * Min(Abs(u), MaxSpeed)
    else v * Deceleration
  }

  /** Position and velocity on one axis. */
  datatype Axis = Axis(p: real, v: real)

  /** One axis of the keyboard position update: past the low bound the
      player is put on it and bounces back with 70% of its speed, past the
      high bound likewise in the other direction; otherwise it moves. */
  function AxisBounce(p: real, v: real, dt: real, lo: real, hi: real): (r: Axis)
    ensures var next := p + v * dt;
      && (next < lo ==> r == Axis(lo, BounceFactor * Abs(v)))
      && (lo <= next && hi < next ==> r == Axis(hi, -BounceFactor * Abs(v)))
      && (lo <= next <= hi ==> r == Axis(next, v))
    ensures lo <= hi ==> lo <= r.p <= hi
    ensures Abs(r.v) <= Abs(v)
  {
    var next := p + v * dt;
    if next < lo then Axis(lo, Abs(v) * BounceFactor)
    else if next > hi then Axis(hi, -Abs(v) * BounceFactor)
    else Axis(next, v)
  }

  /** One axis of the mouse-follow step: a tenth of the way to the target,
      then clamped into the bounds. */
  function Follow(p: real, target: real, lo: real, hi: real): (r: real)
    ensures lo <= hi ==> lo <= r <= hi
    ensures lo <= p <= hi && lo <= target <= hi ==>
      Abs(target - r) == (1.0 - MouseFollowSpeed) * Abs(target - p)
      && Min(p, target) <= r <= Max(p, target)
  {
    Clamp(p + (target - p) * MouseFollowSpeed, lo, hi)
  }
}
