/** The pedestrians and the holes they order at. A `Person` walks along the
    road, reserves a free `Hole`, walks up to it, orders for a fixed time,
    walks back down to the road and walks on; a hole holds at most one
    customer. The two classes refer to each other, so they share a module.

    Each per-mode step of a person is a pure function on `Body`, the part of
    its state the step changes; the class methods are proved to perform
    exactly those steps, and the lemmas below are about the functions. */
module Pedestrians {
  import opened Geometry
  import opened Constants

  datatype Mode = Walking | Approaching | Ordering | Leaving

  /** The cycle a pedestrian goes through: walking, approaching a hole,
      ordering at it, leaving it, walking again. */
  function Next(m: Mode): Mode {
    match m
    case Walking => Approaching
    case Approaching => Ordering
    case Ordering => Leaving
    case Leaving => Walking
  }

  /** What one pedestrian sees of another while walking. */
  datatype Neighbour = Neighbour(x: real, y: real, stationary: bool, velocity: real)

  /** The vertical strip walkers are kept inside (`getRoadSize`). */
  datatype Road = Road(top: real, bottom: real)

  /** The part of a person's state that its per-mode steps change. */
  datatype Body = Body(
    mode: Mode,
    x: real,
    y: real,
    verticalVelocity: real,
    isMovingRight: bool,
    orderTimer: real)

  /** All the mutable state of a person: its body, the hole it targets, and
      the hole it visited last with the cooldown on revisiting it. */
  datatype Snapshot = Snapshot(body: Body, targetHole: Hole?, lastVisitedHole: Hole?, lastVisitedHoleTimer: real)

  /** `isStationary`: ordering or on the way to a hole. */
  predicate Stationary(m: Mode) {
    m == Approaching || m == Ordering
  }

  /** `BOUNDS_PADDING`: how far past either side of the scene a walker goes. */
  function BoundsPadding(cfg: Config): real {
    60.0 + cfg.personRadius * 3.0
  }

  // ---------------------------------------------------------------- walking

  /** The filter of `updateWalking`: `n` is within twice the personal space
      ahead of `b`, in its direction of travel, and vertically closer than
      two radii (three when `n` is stationary). */
  predicate IsAhead(b: Body, n: Neighbour, cfg: Config) {
    var dx := n.x - b.x;
    var effectiveRadius := if n.stationary then cfg.personRadius * 3.0 else cfg.personRadius * 2.0;
    && Abs(dx) < cfg.personalSpace * 2.0
    && Sign(dx) == (if b.isMovingRight then 1.0 else -1.0)
    && Abs(n.y - b.y) < effectiveRadius
  }

  /** The pedestrians ahead, in the order they are listed. */
  function Ahead(b: Body, others: seq<Neighbour>, cfg: Config): seq<Neighbour> {
    if others == [] then []
    else
      var last := others[|others| - 1];
      Ahead(b, others[..|others| - 1], cfg) + (if IsAhead(b, last, cfg) then [last] else [])
  }

  /** Whether some pedestrian ahead is slower than `velocity`: the walker
      then tries to overtake. */
  predicate SlowerAhead(b: Body, velocity: real, others: seq<Neighbour>, cfg: Config) {
    exists k :: 0 <= k < |others| && IsAhead(b, others[k], cfg) && others[k].velocity < velocity
  }

  /** One pedestrian's push on the vertical force. It acts only inside the
      personal space (the wider ordering space and the stronger force when
      the other stands still); at distance zero the source divides by zero,
      and the model leaves the term out. */
  function RepulsionTerm(b: Body, n: Neighbour, cfg: Config, sqrt: real -> real): real {
    var dx := n.x - b.x;
    var dy := n.y - b.y;
    var distance := Dist(dx, dy, sqrt);
    var space := if n.stationary then cfg.orderingPersonalSpace else cfg.personalSpace;
    var strength := if n.stationary then cfg.orderingRepulsionForce else cfg.avoidanceForce;
    if distance < space && distance != 0.0 && space != 0.0 then
      -(dy / distance) * ((space - distance) / space * strength)
    else 0.0
  }

  /** The repulsion accumulated over `others`, in list order. */
  function Repulsion(b: Body, others: seq<Neighbour>, cfg: Config, sqrt: real -> real): real {
    if others == [] then 0.0
    else Repulsion(b, others[..|others| - 1], cfg, sqrt) + RepulsionTerm(b, others[|others| - 1], cfg, sqrt)
  }

  /** Whether `n` is inside the personal space that applies to it. */
  predicate Crowding(b: Body, n: Neighbour, cfg: Config, sqrt: real -> real) {
    var dx := n.x - b.x;
    var dy := n.y - b.y;
    Dist(dx, dy, sqrt) < (if n.stationary then cfg.orderingPersonalSpace else cfg.personalSpace)
  }

  /** Only pedestrians inside their personal space push: with nobody that
      close, the repulsion is zero. */
  lemma {:induction false} RepulsionNeedsCrowding(b: Body, others: seq<Neighbour>, cfg: Config, sqrt: real -> real)
    requires forall k :: 0 <= k < |others| ==> !Crowding(b, others[k], cfg, sqrt)
    ensures Repulsion(b, others, cfg, sqrt) == 0.0
  {
    if others != [] {
      RepulsionNeedsCrowding(b, others[..|others| - 1], cfg, sqrt);
      assert !Crowding(b, others[|others| - 1], cfg, sqrt);
    }
  }

  /** The drift added to the vertical force. Its size is the natural drift
      `velocity * verticalMovementFactor * dt`, tripled while overtaking;
      with a positive natural drift it points down (positive `y`) exactly
      when the person overtakes from the upper half of the road (the centre
      included) or, not overtaking, moves right. */
  function Drift(b: Body, velocity: real, overtake: bool, road: Road, dt: real, cfg: Config): (r: real)
    ensures var natural := velocity * cfg.verticalMovementFactor * dt;
      && Abs(r) == (if overtake then 3.0 else 1.0) * Abs(natural)
      && (natural > 0.0 ==>
            (r > 0.0 <==> if overtake then b.y <= (road.top + road.bottom) / 2.0 else b.isMovingRight))
  {
    var natural := velocity * cfg.verticalMovementFactor * dt;
    if overtake then (if b.y > (road.top + road.bottom) / 2.0 then -1.0 else 1.0) * natural * 3.0
    else if b.isMovingRight then natural else -natural
  }

  /** The damped vertical step: the new `y` is taken only when it lies
      strictly inside the road; otherwise the vertical velocity is zeroed and
      the old `y` is clamped onto the road. */
  function VerticalStep(b: Body, force: real, dt: real, road: Road): (r: Body)
    ensures r == b.(y := r.y, verticalVelocity := r.verticalVelocity)
    ensures road.top <= road.bottom ==> road.top <= r.y <= road.bottom
    ensures !(road.top < r.y < road.bottom) ==> r.verticalVelocity == 0.0
    ensures r.verticalVelocity == 0.0 && road.top <= b.y <= road.bottom ==> r.y == b.y || road.top < r.y < road.bottom
  {
    var vv := (b.verticalVelocity + force * dt) * 0.9;
    var newY := b.y + vv * dt;
    if road.top < newY < road.bottom then b.(y := newY, verticalVelocity := vv)
    else b.(y := Clamp(b.y, road.top, road.bottom), verticalVelocity := 0.0)
  }

  /** `toggleDirection(right)`: nothing happens unless the direction really
      changes; then the person takes the new direction and a fresh random
      `y`. This is the corrected form (see `ToggleAsWritten`). */
  function Toggle(b: Body, right: bool, drawY: real): (r: Body)
    ensures b.isMovingRight == right ==> r == b
    ensures b.isMovingRight != right ==> r == b.(isMovingRight := right, y := drawY)
    ensures r.isMovingRight == right
  {
    if b.isMovingRight != right then b.(isMovingRight := right, y := drawY) else b
  }

  /** `toggleDirection` as the source writes it: the new direction is
      stored and then overwritten by `initializeProperties`' coin flip
      `drawRight`. */
  function ToggleAsWritten(b: Body, right: bool, drawRight: bool, drawY: real): (r: Body)
    ensures b.isMovingRight == right ==> r == b
    ensures b.isMovingRight != right ==> r.isMovingRight == drawRight && r.y == drawY
  {
    if b.isMovingRight != right then b.(isMovingRight := right).(isMovingRight := drawRight, y := drawY) else b
  }

  /** A walker that runs off the left edge can keep heading left: the coin
      flip undoes the turn. */
  lemma ToggleAsWrittenCanKeepHeadingOut(b: Body, drawY: real)
    requires !b.isMovingRight
    ensures !ToggleAsWritten(b, true, false, drawY).isMovingRight
    ensures Toggle(b, true, drawY).isMovingRight
  {
  }

  /** The horizontal step: `movement` in the direction of travel, then the
      edges: past the left edge the walker is put on it and turns right,
      past the right edge it is put on it and turns left. */
  function HorizontalStep(b: Body, movement: real, width: real, drawY: real, cfg: Config): (r: Body)
    ensures var newX := b.x + (if b.isMovingRight then movement else -movement);
      var pad := BoundsPadding(cfg);
      && (newX < -pad ==> r.x == -pad && r.isMovingRight)
      && (-pad <= newX && newX > width + pad ==> r.x == width + pad && !r.isMovingRight)
      && (-pad <= newX <= width + pad ==> r == b.(x := newX))
      && (-pad <= width + pad ==> -pad <= r.x <= width + pad)
    ensures r.mode == b.mode && r.verticalVelocity == b.verticalVelocity && r.orderTimer == b.orderTimer
  {
    var newX := b.x + (if b.isMovingRight then movement else -movement);
    var pad := BoundsPadding(cfg);
    if newX < -pad then Toggle(b.(x := -pad), true, drawY)
    else if newX > width + pad then Toggle(b.(x := width + pad), false, drawY)
    else b.(x := newX)
  }

  /** The horizontal distance walked this frame: a tenth of it when someone
      is ahead and no overtake is attempted. */
  function Movement(velocity: real, dt: real, slowed: bool): (r: real)
    ensures slowed ==> r == velocity * dt * 0.1
    ensures !slowed ==> r == velocity * dt
  {
    var movement := velocity * dt;
    if slowed then movement * 0.1 else movement
  }

  /** `updateWalking`: the whole walking step. */
  function Walk(b: Body, velocity: real, others: seq<Neighbour>, road: Road, width: real,
                dt: real, drawY: real, cfg: Config, sqrt: real -> real): (r: Body)
    ensures r.mode == b.mode
  {
    if Stationary(b.mode) then b
    else
      var overtake := SlowerAhead(b, velocity, others, cfg);
      var force := Repulsion(b, others, cfg, sqrt) + Drift(b, velocity, overtake, road, dt, cfg);
      var v := VerticalStep(b, force, dt, road);
      HorizontalStep(v, Movement(velocity, dt, |Ahead(b, others, cfg)| > 0 && !overtake), width, drawY, cfg)
  }

  /** A walking step is the vertical step under repulsion and drift, then
      the horizontal step, slowed when someone is ahead and no overtake is
      attempted. */
  lemma WalkSteps(b: Body, velocity: real, others: seq<Neighbour>, road: Road, width: real,
                  dt: real, drawY: real, cfg: Config, sqrt: real -> real)
    requires b.mode == Walking
    ensures var overtake := SlowerAhead(b, velocity, others, cfg);
      var v := VerticalStep(b, Repulsion(b, others, cfg, sqrt) + Drift(b, velocity, overtake, road, dt, cfg), dt, road);
      Walk(b, velocity, others, road, width, dt, drawY, cfg, sqrt)
      == HorizontalStep(v, Movement(velocity, dt, |Ahead(b, others, cfg)| > 0 && !overtake), width, drawY, cfg)
  {
  }

  /** After a walking step the walker is on the road (unless it turned at an
      edge, which redraws its `y`) and inside the padded scene width. */
  lemma WalkKeepsBounds(b: Body, velocity: real, others: seq<Neighbour>, road: Road, width: real,
                        dt: real, drawY: real, cfg: Config, sqrt: real -> real)
    requires b.mode == Walking && road.top <= road.bottom && cfg.Valid() && width >= 0.0
    ensures var r := Walk(b, velocity, others, road, width, dt, drawY, cfg, sqrt);
      && r.mode == Walking
      && -BoundsPadding(cfg) <= r.x <= width + BoundsPadding(cfg)
      && (r.isMovingRight == b.isMovingRight ==> road.top <= r.y <= road.bottom)
  {
  }

  // ---------------------------------------------------------------- approaching

  /** Where a customer of the hole at `(hx, hy)` stands: just below it. */
  function OrderPointY(hy: real, cfg: Config): real {
    hy + Offset(cfg)
  }

  /** How far below a hole's centre its customer stands. */
  function Offset(cfg: Config): real {
    cfg.personRadius + cfg.holeHeight / 2.0
  }

  /** `updateApproaching`: within 2 of the order point the person snaps onto
      it and starts ordering with a full timer; farther away it moves
      `speed` along the direction to it and keeps approaching. */
  function Approach(b: Body, hx: real, hy: real, speed: real, cfg: Config, sqrt: real -> real): (r: Body)
    ensures var dx := hx - b.x;
      var dy := OrderPointY(hy, cfg) - b.y;
      && (Dist(dx, dy, sqrt) < 2.0 ==>
            r == b.(x := hx, y := OrderPointY(hy, cfg), mode := Ordering, orderTimer := cfg.orderTime))
      && (Dist(dx, dy, sqrt) >= 2.0 ==>
            r == b.(x := r.x, y := r.y))
  {
    var dx := hx - b.x;
    var dy := OrderPointY(hy, cfg) - b.y;
    var distance := Dist(dx, dy, sqrt);
    if distance < 2.0 then
      b.(x := hx, y := OrderPointY(hy, cfg), mode := Ordering, orderTimer := cfg.orderTime)
    else
      b.(x := b.x + dx / distance * speed, y := b.y + dy / distance * speed)
  }

  /** A step of the approach moves along the line to the order point: the
      offset to it is scaled by `1 - speed / d`, where `d` (at least 2) is
      the distance before the step. */
  lemma ApproachOffset(b: Body, hx: real, hy: real, speed: real, cfg: Config, sqrt: real -> real)
    requires Dist(hx - b.x, OrderPointY(hy, cfg) - b.y, sqrt) >= 2.0
    ensures var d := Dist(hx - b.x, OrderPointY(hy, cfg) - b.y, sqrt);
      var r := Approach(b, hx, hy, speed, cfg, sqrt);
      && hx - r.x == (1.0 - speed / d) * (hx - b.x)
      && OrderPointY(hy, cfg) - r.y == (1.0 - speed / d) * (OrderPointY(hy, cfg) - b.y)
  {
    var d := Dist(hx - b.x, OrderPointY(hy, cfg) - b.y, sqrt);
    StepOffset(hx, b.x, d, speed);
    StepOffset(OrderPointY(hy, cfg), b.y, d, speed);
  }

  /** So the step moves exactly `speed` along that line: from distance `d`
      the person ends `|d - speed|` from the order point; any step shorter
      than `2 d` brings it closer, and a step no longer than `d` brings it
      exactly `speed` closer. */
  lemma ApproachDistance(b: Body, hx: real, hy: real, speed: real, cfg: Config, sqrt: real -> real)
    requires IsSquareRoot(sqrt)
    requires Dist(hx - b.x, OrderPointY(hy, cfg) - b.y, sqrt) >= 2.0
    ensures var d := Dist(hx - b.x, OrderPointY(hy, cfg) - b.y, sqrt);
      var r := Approach(b, hx, hy, speed, cfg, sqrt);
      var e := Dist(hx - r.x, OrderPointY(hy, cfg) - r.y, sqrt);
      && e == Abs(d - speed)
      && (0.0 < speed < 2.0 * d ==> e < d)
      && (0.0 <= speed <= d ==> e == d - speed)
  {
    var d := Dist(hx - b.x, OrderPointY(hy, cfg) - b.y, sqrt);
    var r := Approach(b, hx, hy, speed, cfg, sqrt);
    ApproachOffset(b, hx, hy, speed, cfg, sqrt);
    StepDistance(hx - b.x, OrderPointY(hy, cfg) - b.y, hx - r.x, OrderPointY(hy, cfg) - r.y, d, speed, sqrt);
  }

  /** Scaling the offset `(dx, dy)` of length `d` by `1 - speed / d` gives
      an offset `(ex, ey)` of length `|d - speed|`. */
  lemma StepDistance(dx: real, dy: real, ex: real, ey: real, d: real, speed: real, sqrt: real -> real)
    requires IsSquareRoot(sqrt)
    requires d == Dist(dx, dy, sqrt) && d >= 2.0
    requires ex == (1.0 - speed / d) * dx && ey == (1.0 - speed / d) * dy
    ensures Dist(ex, ey, sqrt) == Abs(d - speed)
    ensures 0.0 < speed < 2.0 * d ==> Dist(ex, ey, sqrt) < d
    ensures 0.0 <= speed <= d ==> Dist(ex, ey, sqrt) == d - speed
  {
    assert Dist(ex, ey, sqrt) == Abs(d - speed) by {
      var k := 1.0 - speed / d;
      DistScaled(dx, dy, k, sqrt);
      DistCongruent(ex, ey, k * dx, k * dy, sqrt);
      ScaleLength(d, speed);
    }
    StepBelow(d, speed, Dist(ex, ey, sqrt));
  }

  lemma StepBelow(d: real, speed: real, e: real)
    requires e == Abs(d - speed)
    ensures 0.0 < speed < 2.0 * d ==> e < d
    ensures 0.0 <= speed <= d ==> e == d - speed
  {
  }

  /** Moving from `p` by `(h - p) / d * speed` leaves `1 - speed / d` of the
      offset to `h`. */
  lemma StepOffset(h: real, p: real, d: real, speed: real)
    requires d != 0.0
    ensures h - (p + (h - p) / d * speed) == (1.0 - speed / d) * (h - p)
  {
  }

  lemma ScaleLength(d: real, speed: real)
    requires d > 0.0
    ensures Abs(1.0 - speed / d) * d == Abs(d - speed)
  {
    assert (1.0 - speed / d) * d == d - speed;
  }

  /** The approach step is not cut short at the order point: a person 2.5
      short of it whose frame step is 5 lands 2.5 beyond it, outside the
      arrival window, and the next such step brings it back where it
      started, so it never starts ordering. */
  lemma ApproachCanOscillate(b: Body, hx: real, hy: real, cfg: Config, sqrt: real -> real)
    requires IsSquareRoot(sqrt)
    requires b.x == hx - 2.5 && b.y == OrderPointY(hy, cfg) && b.mode == Approaching
    ensures var r := Approach(b, hx, hy, 5.0, cfg, sqrt);
      && r.x == hx + 2.5 && r.mode == Approaching
      && Approach(r, hx, hy, 5.0, cfg, sqrt) == b
  {
    var oy := OrderPointY(hy, cfg);
    SquareNonNegative(2.5);
    RootUnique(sqrt(2.5 * 2.5 + 0.0 * 0.0), 2.5);
    assert Dist(hx - b.x, oy - b.y, sqrt) == 2.5;
    var r := Approach(b, hx, hy, 5.0, cfg, sqrt);
    assert r.x == hx + 2.5 && r.y == oy;
    assert Dist(hx - r.x, oy - r.y, sqrt) == 2.5 by {
      assert (hx - r.x) * (hx - r.x) + (oy - r.y) * (oy - r.y) == 2.5 * 2.5 + 0.0 * 0.0;
    }
  }

  // ---------------------------------------------------------------- ordering

  /** `updateOrdering` on the body: the timer runs down by `delta`; at or
      below zero the person starts leaving. */
  function OrderTick(b: Body, delta: real): (r: Body)
    ensures r.orderTimer == b.orderTimer - delta
    ensures r.mode == (if b.orderTimer - delta <= 0.0 then Leaving else b.mode)
    ensures r == b.(orderTimer := r.orderTimer, mode := r.mode)
  {
    var t := b.orderTimer - delta;
    b.(orderTimer := t, mode := if t <= 0.0 then Leaving else b.mode)
  }

  /** Ordering over a run of frames; a person that has finished ordering
      takes no more ordering ticks. */
  function OrderingRun(b: Body, ds: seq<real>): Body
    decreases |ds|
  {
    if ds == [] || b.mode != Ordering then b else OrderingRun(OrderTick(b, ds[0]), ds[1..])
  }

  /** Ordering lasts exactly `orderTimer` milliseconds: over frames of
      non-negative length it ends iff their total reaches the timer, and
      until then the timer holds what is left. */
  lemma {:induction false} OrderingEndsOnTime(b: Body, ds: seq<real>)
    requires b.mode == Ordering && b.orderTimer > 0.0 && NonNegative(ds)
    decreases |ds|
    ensures OrderingRun(b, ds).mode == Leaving <==> Sum(ds) >= b.orderTimer
    ensures OrderingRun(b, ds).mode == Ordering <==> Sum(ds) < b.orderTimer
    ensures Sum(ds) < b.orderTimer ==> OrderingRun(b, ds).orderTimer == b.orderTimer - Sum(ds)
  {
    if ds != [] {
      assert NonNegative(ds[1..]);
      SumNonNegative(ds[1..]);
      var next := OrderTick(b, ds[0]);
      if next.mode == Ordering {
        OrderingEndsOnTime(next, ds[1..]);
      }
    }
  }

  // ---------------------------------------------------------------- leaving

  /** The road centre a leaving person heads back to. */
  function LeavingTargetY(height: real, cfg: Config): real {
    height - cfg.roadHeight / 2.0
  }

  /** `updateLeaving` as the source writes it: within 2 of the road centre
      the person snaps onto it and walks again; otherwise it moves `speed`
      down, whichever side of the centre it is on. */
  function LeaveAsWritten(b: Body, targetY: real, speed: real): (r: Body)
    ensures Abs(targetY - b.y) < 2.0 ==> r == b.(y := targetY, mode := Walking)
    ensures Abs(targetY - b.y) >= 2.0 ==> r == b.(y := b.y + speed)
  {
    if Abs(targetY - b.y) < 2.0 then b.(y := targetY, mode := Walking) else b.(y := b.y + speed)
  }

  function LeaveAsWrittenRun(b: Body, targetY: real, speeds: seq<real>): Body
    decreases |speeds|
  {
    if speeds == [] || b.mode != Leaving then b
    else LeaveAsWrittenRun(LeaveAsWritten(b, targetY, speeds[0]), targetY, speeds[1..])
  }

  /** Once a leaving person is 2 or more below the road centre it never
      comes back: every later step moves it further down. */
  lemma {:induction false} LeaveAsWrittenNeverReturns(b: Body, targetY: real, speeds: seq<real>)
    requires b.mode == Leaving && b.y >= targetY + 2.0 && NonNegative(speeds)
    ensures LeaveAsWrittenRun(b, targetY, speeds).mode == Leaving
    ensures LeaveAsWrittenRun(b, targetY, speeds).y >= b.y
    decreases |speeds|
  {
    if speeds != [] {
      assert NonNegative(speeds[1..]);
      LeaveAsWrittenNeverReturns(LeaveAsWritten(b, targetY, speeds[0]), targetY, speeds[1..]);
    }
  }

  /** A frame longer than the 4-unit snapping window steps right over it:
      from 2.5 above the centre a step of 4.5 lands 2 below it, and the
      person then walks down forever. */
  lemma LeaveAsWrittenOvershoots(b: Body, targetY: real, speeds: seq<real>)
    requires b.mode == Leaving && b.y == targetY - 2.5 && NonNegative(speeds)
    ensures LeaveAsWritten(b, targetY, 4.5).y == targetY + 2.0
    ensures LeaveAsWrittenRun(b, targetY, [4.5] + speeds).mode == Leaving
  {
    var next := LeaveAsWritten(b, targetY, 4.5);
    assert ([4.5] + speeds)[1..] == speeds;
    LeaveAsWrittenNeverReturns(next, targetY, speeds);
  }

  /** `updateLeaving` corrected: the person moves toward the road centre
      and snaps onto it when it is within 2 or within this frame's step. */
  function Leave(b: Body, targetY: real, speed: real): (r: Body)
    ensures Abs(targetY - b.y) < 2.0 || Abs(targetY - b.y) <= speed ==>
      r == b.(y := targetY, mode := Walking)
    ensures !(Abs(targetY - b.y) < 2.0 || Abs(targetY - b.y) <= speed) ==>
      r.mode == b.mode && Abs(targetY - r.y) == Abs(targetY - b.y) - speed
    ensures r == b.(y := r.y, mode := r.mode)
  {
    var dy := targetY - b.y;
    if Abs(dy) < 2.0 || Abs(dy) <= speed then b.(y := targetY, mode := Walking)
    else b.(y := b.y + Sign(dy) * speed)
  }

  function LeaveRun(b: Body, targetY: real, speeds: seq<real>): Body
    decreases |speeds|
  {
    if speeds == [] || b.mode != Leaving then b
    else LeaveRun(Leave(b, targetY, speeds[0]), targetY, speeds[1..])
  }

  /** Corrected leaving always arrives: once the steps taken add up to the
      distance to the road centre, the person is on it and walking. */
  lemma {:induction false} LeaveArrives(b: Body, targetY: real, speeds: seq<real>)
    requires b.mode == Leaving && speeds != [] && NonNegative(speeds)
    requires Sum(speeds) >= Abs(targetY - b.y)
    decreases |speeds|
    ensures LeaveRun(b, targetY, speeds).mode == Walking
    ensures LeaveRun(b, targetY, speeds).y == targetY
  {
    var next := Leave(b, targetY, speeds[0]);
    if next.mode == Leaving {
      assert NonNegative(speeds[1..]);
      LeaveArrives(next, targetY, speeds[1..]);
    }
  }

  // ---------------------------------------------------------------- cooldown

  /** The revisit cooldown: whether the last hole is remembered, and the
      timer that guards it. */
  datatype Cooldown = Cooldown(remembering: bool, timer: real)

  /** One frame of the cooldown: while a hole is remembered and the timer is
      positive, the timer runs down; at or below zero the hole is forgotten
      and the timer is reset to the full cooldown. */
  function CooldownTick(c: Cooldown, delta: real, full: real): (r: Cooldown)
    ensures !(c.remembering && c.timer > 0.0) ==> r == c
    ensures c.remembering && c.timer > 0.0 && c.timer - delta > 0.0 ==> r == Cooldown(true, c.timer - delta)
    ensures c.remembering && c.timer > 0.0 && c.timer - delta <= 0.0 ==> r == Cooldown(false, full)
  {
    if c.remembering && c.timer > 0.0 then
      var t := c.timer - delta;
      if t <= 0.0 then Cooldown(false, full) else Cooldown(true, t)
    else c
  }

  function CooldownRun(c: Cooldown, ds: seq<real>, full: real): Cooldown
    decreases |ds|
  {
    if ds == [] then c else CooldownRun(CooldownTick(c, ds[0], full), ds[1..], full)
  }

  /** A hole visited with a fresh cooldown is remembered exactly while less
      than the cooldown has elapsed; once forgotten, the timer rests at the
      full cooldown. */
  lemma {:induction false} CooldownExpires(c: Cooldown, ds: seq<real>, full: real)
    requires c.remembering && c.timer > 0.0 && NonNegative(ds)
    decreases |ds|
    ensures CooldownRun(c, ds, full).remembering <==> Sum(ds) < c.timer
    ensures Sum(ds) < c.timer ==> CooldownRun(c, ds, full).timer == c.timer - Sum(ds)
    ensures Sum(ds) >= c.timer ==> CooldownRun(c, ds, full).timer == full
  {
    if ds != [] {
      assert NonNegative(ds[1..]);
      SumNonNegative(ds[1..]);
      var next := CooldownTick(c, ds[0], full);
      if next.remembering {
        CooldownExpires(next, ds[1..], full);
      } else {
        CooldownForgotten(next, ds[1..], full);
      }
    }
  }

  /** A forgotten hole stays forgotten and the timer stays put. */
  lemma {:induction false} CooldownForgotten(c: Cooldown, ds: seq<real>, full: real)
    requires !c.remembering
    ensures CooldownRun(c, ds, full) == c
    decreases |ds|
  {
    if ds != [] {
      CooldownForgotten(CooldownTick(c, ds[0], full), ds[1..], full);
    }
  }

  /** The first pass of `updateWalking`: how many pedestrians are ahead,
      and whether one of them is slower (the flag the filter sets). */
  method ScanAhead(me: Body, velocity: real, others: seq<Neighbour>, cfg: Config)
    returns (aheadCount: nat, overtake: bool)
    ensures aheadCount == |Ahead(me, others, cfg)|
    ensures overtake <==> exists k :: 0 <= k < |others| && IsAhead(me, others[k], cfg) && others[k].velocity < velocity
    ensures overtake ==> aheadCount > 0
  {
    aheadCount, overtake := 0, false;
    var i := 0;
    while i < |others|
      invariant 0 <= i <= |others|
      invariant aheadCount == |Ahead(me, others[..i], cfg)|
      invariant overtake <==> SlowerAhead(me, velocity, others[..i], cfg)
      invariant overtake ==> aheadCount > 0
    {
      assert others[..i + 1][..i] == others[..i];
      assert others[..i + 1][i] == others[i];
      if IsAhead(me, others[i], cfg) {
        aheadCount := aheadCount + 1;
        if others[i].velocity < velocity {
          overtake := true;
        }
      }
      assert SlowerAhead(me, velocity, others[..i + 1], cfg) <==>
        SlowerAhead(me, velocity, others[..i], cfg) ||
        (IsAhead(me, others[i], cfg) && others[i].velocity < velocity);
      i := i + 1;
    }
    assert others[..i] == others;
  }

  /** The second pass of `updateWalking`: the repulsion summed over the
      other pedestrians. */
  method TotalRepulsion(me: Body, others: seq<Neighbour>, cfg: Config, sqrt: real -> real)
    returns (total: real)
    ensures total == Repulsion(me, others, cfg, sqrt)
    ensures (forall k :: 0 <= k < |others| ==> !Crowding(me, others[k], cfg, sqrt)) ==> total == 0.0
  {
    total := 0.0;
    var i := 0;
    while i < |others|
      invariant 0 <= i <= |others|
      invariant total == Repulsion(me, others[..i], cfg, sqrt)
    {
      assert others[..i + 1][..i] == others[..i];
      total := total + RepulsionTerm(me, others[i], cfg, sqrt);
      i := i + 1;
    }
    assert others[..i] == others;
    if forall k :: 0 <= k < |others| ==> !Crowding(me, others[k], cfg, sqrt) {
      RepulsionNeedsCrowding(me, others, cfg, sqrt);
    }
  }

  // ---------------------------------------------------------------- classes

  /** A hole in the wall: a single-slot reservation cell. */
  class Hole {
    const id: nat
    const x: real
    const y: real
    var currentCustomer: Person?

    /** A new hole is free. */
    constructor (id: nat, x: real, y: real)
      ensures this.id == id && this.x == x && this.y == y
      ensures currentCustomer == null && IsAvailable()
    {
      this.id := id;
      this.x := x;
      this.y := y;
      currentCustomer := null;
    }

    /** The node id; `id` is fixed at construction, so this never changes. */
    function GetId(): (r: nat)
      ensures r == id
    {
      id
    }

    /** Free exactly when no one is being served. */
    function IsAvailable(): (r: bool)
      reads this
      ensures r <==> currentCustomer == null
    {
      currentCustomer == null
    }

    /** `startServing`: takes `person` as the customer, unguarded: an
        existing customer is overwritten. */
    method StartServing(person: Person)
      modifies this
      ensures currentCustomer == person && !IsAvailable()
    {
      currentCustomer := person;
    }

    /** `stopServing`: frees the hole, whoever held it. */
    method StopServing()
      modifies this
      ensures currentCustomer == null && IsAvailable()
    {
      currentCustomer := null;
    }
  }

  /** A pedestrian. */
  class Person {
    const id: nat
    /** Walking speed in pixels per second, drawn once from 50..150. */
    const velocity: real
    var isMovingRight: bool
    var mode: Mode
    var targetHole: Hole?
    var orderTimer: real
    var lastVisitedHole: Hole?
    var lastVisitedHoleTimer: real
    var verticalVelocity: real
    var x: real
    var y: real

    function State(): Body
      reads this
    {
      Body(mode, x, y, verticalVelocity, isMovingRight, orderTimer)
    }

    /** Every field of the person that can change. */
    function Snap(): Snapshot
      reads this
    {
      Snapshot(State(), targetHole, lastVisitedHole, lastVisitedHoleTimer)
    }

    function CooldownState(): Cooldown
      reads this
    {
      Cooldown(lastVisitedHole != null, lastVisitedHoleTimer)
    }

    /** What other walkers see of this person. */
    function AsNeighbour(): Neighbour
      reads this
    {
      Neighbour(x, y, Stationary(mode), velocity)
    }

    /** A new person walks at the drawn velocity, in the drawn direction, at
        the drawn `y`: `initializeProperties` overwrites the `y` it is
        given. */
    constructor (id: nat, x: real, y: real, velocityDraw: int, drawRight: bool, drawY: real)
      requires 50 <= velocityDraw <= 150
      ensures this.id == id && this.x == x && this.y == drawY
      ensures velocity == velocityDraw as real && isMovingRight == drawRight
      ensures mode == Walking && targetHole == null && lastVisitedHole == null
      ensures orderTimer == 0.0 && lastVisitedHoleTimer == 0.0 && verticalVelocity == 0.0
    {
      this.id := id;
      this.x := x;
      this.y := y;
      velocity := velocityDraw as real;
      mode := Walking;
      targetHole := null;
      orderTimer := 0.0;
      lastVisitedHole := null;
      lastVisitedHoleTimer := 0.0;
      verticalVelocity := 0.0;
      isMovingRight := drawRight;
      this.y := drawY;
    }

    /** `tryToOrder`: a walking person reserves a free hole it did not just
        visit, starts the revisit cooldown and starts approaching; in every
        other case nothing changes. */
    method TryToOrder(hole: Hole, cfg: Config)
      modifies this, hole
      ensures old(mode == Walking && hole.IsAvailable() && hole != lastVisitedHole) ==>
        && targetHole == hole && lastVisitedHole == hole
        && lastVisitedHoleTimer == cfg.holeRevisitCooldown
        && mode == Approaching && hole.currentCustomer == this
        && State() == old(State()).(mode := Approaching)
      ensures !old(mode == Walking && hole.IsAvailable() && hole != lastVisitedHole) ==>
        unchanged(this) && unchanged(hole)
    {
      if mode == Walking && hole.IsAvailable() && hole != lastVisitedHole {
        targetHole := hole;
        lastVisitedHole := hole;
        lastVisitedHoleTimer := cfg.holeRevisitCooldown;
        mode := Approaching;
        hole.StartServing(this);
      }
    }

    /** `update`: the step of the current mode, then the cooldown. */
    method Update(delta: real, cfg: Config, others: seq<Neighbour>, road: Road,
                  width: real, height: real, drawY: real, sqrt: real -> real)
      modifies this, targetHole
      ensures old(mode) == Walking ==>
        State() == Walk(old(State()), velocity, others, road, width, delta / 1000.0, drawY, cfg, sqrt)
        && targetHole == old(targetHole)
      ensures old(mode) == Approaching && old(targetHole) == null ==>
        State() == old(State()) && targetHole == null
      ensures old(mode) == Approaching && old(targetHole) != null ==>
        State() == Approach(old(State()), old(targetHole).x, old(targetHole).y,
                            velocity * (delta / 1000.0), cfg, sqrt)
        && targetHole == old(targetHole)
      ensures old(mode) == Ordering ==> State() == OrderTick(old(State()), delta)
      ensures old(mode) == Ordering && mode == Leaving ==>
        targetHole == null && (old(targetHole) != null ==> old(targetHole).currentCustomer == null)
      ensures !(old(mode) == Ordering && mode == Leaving) ==>
        (old(targetHole) != null ==> unchanged(old(targetHole)))
      ensures old(mode) == Ordering && mode == Ordering ==> targetHole == old(targetHole)
      ensures old(mode) == Leaving ==>
        State() == Leave(old(State()), LeavingTargetY(height, cfg), velocity * (delta / 1000.0))
        && targetHole == (if mode == Walking then null else old(targetHole))
      ensures CooldownState() == CooldownTick(old(CooldownState()), delta, cfg.holeRevisitCooldown)
      ensures lastVisitedHole == (if CooldownState().remembering then old(lastVisitedHole) else null)
      ensures mode == old(mode) || (old(mode) != Walking && mode == Next(old(mode)))
    {
      match mode {
        case Walking => UpdateWalking(delta, cfg, others, road, width, drawY, sqrt);
        case Approaching => UpdateApproaching(delta, cfg, sqrt);
        case Ordering => UpdateOrdering(delta);
        case Leaving => UpdateLeaving(delta, cfg, height);
      }
      if lastVisitedHole != null && lastVisitedHoleTimer > 0.0 {
        lastVisitedHoleTimer := lastVisitedHoleTimer - delta;
        if lastVisitedHoleTimer <= 0.0 {
          lastVisitedHole := null;
          lastVisitedHoleTimer := cfg.holeRevisitCooldown;
        }
      }
    }

    /** `updateWalking`: two passes over the other pedestrians (who is ahead
        and whether one of them is slower; the repulsion they exert), then
        the vertical and horizontal steps. */
    method UpdateWalking(delta: real, cfg: Config, others: seq<Neighbour>, road: Road,
                         width: real, drawY: real, sqrt: real -> real)
      requires mode == Walking
      modifies this
      ensures State() == Walk(old(State()), velocity, others, road, width, delta / 1000.0, drawY, cfg, sqrt)
      ensures targetHole == old(targetHole) && lastVisitedHole == old(lastVisitedHole)
      ensures lastVisitedHoleTimer == old(lastVisitedHoleTimer)
    {
      var dt := delta / 1000.0;
      var me := State();
      var aheadCount, overtake := ScanAhead(me, velocity, others, cfg);
      assert overtake == SlowerAhead(me, velocity, others, cfg);
      var totalForceY := TotalRepulsion(me, others, cfg, sqrt);
      totalForceY := totalForceY + Drift(me, velocity, overtake, road, dt, cfg);
      var vertical := VerticalStep(me, totalForceY, dt, road);
      y, verticalVelocity := vertical.y, vertical.verticalVelocity;
      assert State() == vertical;
      var movement := Movement(velocity, dt, aheadCount > 0 && !overtake);
      MoveHorizontally(movement, width, drawY, cfg);
      WalkSteps(me, velocity, others, road, width, dt, drawY, cfg, sqrt);
    }

    /** The horizontal part of `updateWalking`: the move, then the turn at
        either padded edge. */
    method MoveHorizontally(movement: real, width: real, drawY: real, cfg: Config)
      modifies this
      ensures State() == HorizontalStep(old(State()), movement, width, drawY, cfg)
      ensures targetHole == old(targetHole) && lastVisitedHole == old(lastVisitedHole)
      ensures lastVisitedHoleTimer == old(lastVisitedHoleTimer)
    {
      x := x + (if isMovingRight then movement else -movement);
      var pad := BoundsPadding(cfg);
      if x < -pad {
        x := -pad;
        ToggleDirection(true, drawY);
      } else if x > width + pad {
        x := width + pad;
        ToggleDirection(false, drawY);
      }
    }

    /** `toggleDirection`, corrected: re-initialises the person only when
        the direction really changes, and keeps the direction asked for. */
    method ToggleDirection(right: bool, drawY: real)
      modifies this
      ensures State() == Toggle(old(State()), right, drawY)
      ensures targetHole == old(targetHole) && lastVisitedHole == old(lastVisitedHole)
      ensures lastVisitedHoleTimer == old(lastVisitedHoleTimer)
    {
      if isMovingRight != right {
        isMovingRight := right;
        y := drawY;
      }
    }

    method UpdateApproaching(delta: real, cfg: Config, sqrt: real -> real)
      requires mode == Approaching
      modifies this
      ensures targetHole == null ==> State() == old(State())
      ensures targetHole != null ==>
        State() == Approach(old(State()), targetHole.x, targetHole.y, velocity * (delta / 1000.0), cfg, sqrt)
      ensures targetHole == old(targetHole) && lastVisitedHole == old(lastVisitedHole)
      ensures lastVisitedHoleTimer == old(lastVisitedHoleTimer)
    {
      if targetHole == null {
        return;
      }
      var speed := velocity * (delta / 1000.0);
      ghost var want := Approach(State(), targetHole.x, targetHole.y, speed, cfg, sqrt);
      var dx := targetHole.x - x;
      var dy := OrderPointY(targetHole.y, cfg) - y;
      var distance := Dist(dx, dy, sqrt);
      if distance < 2.0 {
        x := targetHole.x;
        y := OrderPointY(targetHole.y, cfg);
        mode := Ordering;
        orderTimer := cfg.orderTime;
      } else {
        x := x + dx / distance * speed;
        y := y + dy / distance * speed;
      }
      assert State() == want;
    }

    /** `updateOrdering`: when the timer runs out the person leaves and
        frees its hole. */
    method UpdateOrdering(delta: real)
      requires mode == Ordering
      modifies this, targetHole
      ensures State() == OrderTick(old(State()), delta)
      ensures mode == Leaving ==>
        targetHole == null && (old(targetHole) != null ==> old(targetHole).currentCustomer == null)
      ensures mode != Leaving ==>
        targetHole == old(targetHole) && (old(targetHole) != null ==> unchanged(old(targetHole)))
      ensures lastVisitedHole == old(lastVisitedHole) && lastVisitedHoleTimer == old(lastVisitedHoleTimer)
    {
      orderTimer := orderTimer - delta;
      if orderTimer <= 0.0 {
        mode := Leaving;
        if targetHole != null {
          targetHole.StopServing();
          targetHole := null;
        }
      }
    }

    /** `updateLeaving`, corrected (see `LeaveAsWritten`). */
    method UpdateLeaving(delta: real, cfg: Config, height: real)
      requires mode == Leaving
      modifies this
      ensures State() == Leave(old(State()), LeavingTargetY(height, cfg), velocity * (delta / 1000.0))
      ensures targetHole == (if mode == Walking then null else old(targetHole))
      ensures lastVisitedHole == old(lastVisitedHole) && lastVisitedHoleTimer == old(lastVisitedHoleTimer)
    {
      var speed := velocity * (delta / 1000.0);
      var targetY := height - cfg.roadHeight / 2.0;
      var dy := targetY - y;
      if Abs(dy) < 2.0 || Abs(dy) <= speed {
        y := targetY;
        mode := Walking;
        targetHole := null;
      } else {
        y := y + Sign(dy) * speed;
      }
    }

    /** `getVelocity`. */
    function GetVelocity(): (r: real)
      ensures r == velocity
    {
      velocity
    }
  }
}
