/** The force field an attached `Information` particle moves in: attraction
    to its player scaled down near it, repulsion inside `MinDistance`, a
    tangential orbit term inside `OrbitRange`, repulsion from nearby peers,
    friction and a speed cap. Only the gating, the caps and the clamps are
    stated; trajectories are not. */
module InfoForces {
  import opened Geometry
  import opened PlayerMotion

  const BaseRadius: real := 4.0
  const InfoPulseRange: real := 2.0
  const InfoMaxSpeed: real := 300.0
  const AttractionForce: real := 800.0
  const RepulsionForce: real := 2000.0
  const OrbitalForce: real := 400.0
  const Friction: real := 0.98
  const MinDistance: real := 30.0
  const OrbitRange: real := 60.0
  const InfoRepulsionForce: real := 1000.0
  const InfoMinDistance: real := 15.0

  datatype Vec = Vec(x: real, y: real)

  /** The particle's bounds: the given ones shrunk by `BaseRadius +
      InfoPulseRange` on every side, so its largest circle stays inside. */
  function Inset(b: Bounds): (r: Bounds)
    ensures var margin := BaseRadius + InfoPulseRange;
      && r.minX == b.minX + margin && r.maxX == b.maxX - margin
      && r.minY == b.minY + margin && r.maxY == b.maxY - margin
    ensures r.NonEmpty() ==> b.NonEmpty()
    ensures forall x, y :: r.Contains(x, y) ==> b.Contains(x, y)
  {
    var margin := BaseRadius + InfoPulseRange;
    Bounds(b.minX + margin, b.maxX - margin, b.minY + margin, b.maxY - margin)
  }

  /** `Math.min(1, d / OrbitRange)`: full attraction from `OrbitRange` on,
      proportionally less closer in. */
  function AttractionMultiplier(d: real): (r: real)
    requires d >= 0.0
    ensures 0.0 <= r <= 1.0
    ensures d >= OrbitRange ==> r == 1.0
    ensures d < OrbitRange ==> r == d / OrbitRange
  {
    Min(1.0, d / OrbitRange)
  }

  /** The push away from the player: positive exactly inside `MinDistance`. */
  function Repulsion(d: real): (r: real)
    requires d >= 0.0
    ensures r > 0.0 <==> d < MinDistance
    ensures r >= 0.0 && r <= RepulsionForce
  {
    if d < MinDistance then (1.0 - d / MinDistance) * RepulsionForce else 0.0
  }

  /** The tangential orbit strength: positive exactly inside `OrbitRange`. */
  function OrbitMultiplier(d: real): (r: real)
    requires d >= 0.0
    ensures r > 0.0 <==> d < OrbitRange
    ensures 0.0 <= r <= 1.0
  {
    if d < OrbitRange then 1.0 - d / OrbitRange else 0.0
  }

  /** The push from one peer at distance `d`: positive exactly when
      `0 < d < InfoMinDistance`. */
  function PeerRepulsion(d: real): (r: real)
    ensures r > 0.0 <==> 0.0 < d < InfoMinDistance
    ensures r <= InfoRepulsionForce
  {
    if d < InfoMinDistance && d > 0.0 then (1.0 - d / InfoMinDistance) * InfoRepulsionForce else 0.0
  }

  /** The unit vector along `(dx, dy)` of length `d`; at distance zero the
      source divides by zero, and the model takes the zero vector. */
  function Direction(dx: real, dy: real, d: real): Vec {
    if d == 0.0 then Vec(0.0, 0.0) else Vec(dx / d, dy / d)
  }

  /** The force the player exerts at offset `(dx, dy)`, distance `d`. */
  function PlayerForce(dx: real, dy: real, d: real): (f: Vec)
    requires d >= 0.0
    ensures d >= OrbitRange ==>
      f == Vec(Direction(dx, dy, d).x * AttractionForce, Direction(dx, dy, d).y * AttractionForce)
  {
    var dir := Direction(dx, dy, d);
    var attraction := AttractionForce * AttractionMultiplier(d);
    var push := Repulsion(d);
    var orbit := OrbitalForce * OrbitMultiplier(d);
    Vec(dir.x * attraction - dir.x * push + -dir.y * orbit,
        dir.y * attraction - dir.y * push + dir.x * orbit)
  }

  /** What a particle sees of another one. */
  datatype Peer = Peer(id: nat, x: real, y: real)

  /** The repulsion one peer exerts on the particle `id` at `(x, y)`: none
      from itself (same id) and none from a peer outside `(0,
      InfoMinDistance)`. */
  function PeerForce(id: nat, x: real, y: real, p: Peer, sqrt: real -> real): (f: Vec)
    ensures p.id == id ==> f == Vec(0.0, 0.0)
  {
    if p.id == id then Vec(0.0, 0.0)
    else
      var dx := p.x - x;
      var dy := p.y - y;
      var d := sqrt(dx * dx + dy * dy);
      var strength := PeerRepulsion(d);
      if strength > 0.0 then Vec(-(dx / d) * strength, -(dy / d) * strength) else Vec(0.0, 0.0)
  }

  /** Whether peer `p` pushes the particle at all. */
  predicate Pushes(id: nat, x: real, y: real, p: Peer, sqrt: real -> real) {
    var dx := p.x - x;
    var dy := p.y - y;
    p.id != id && 0.0 < sqrt(dx * dx + dy * dy) < InfoMinDistance
  }

  /** The peer forces summed in list order. */
  function PeerForces(id: nat, x: real, y: real, peers: seq<Peer>, sqrt: real -> real): Vec {
    if peers == [] then Vec(0.0, 0.0)
    else
      var rest := PeerForces(id, x, y, peers[..|peers| - 1], sqrt);
      var last := PeerForce(id, x, y, peers[|peers| - 1], sqrt);
      Vec(rest.x + last.x, rest.y + last.y)
  }

  /** Peers that do not push (itself, and any outside the repulsion range)
      contribute nothing to the sum. */
  lemma {:induction false} PeerForcesNeedNeighbours(id: nat, x: real, y: real, peers: seq<Peer>, sqrt: real -> real)
    ensures (forall k :: 0 <= k < |peers| ==> !Pushes(id, x, y, peers[k], sqrt)) ==>
      PeerForces(id, x, y, peers, sqrt) == Vec(0.0, 0.0)
  {
    if peers != [] {
      var n := |peers| - 1;
      PeerForcesNeedNeighbours(id, x, y, peers[..n], sqrt);
      if forall k :: 0 <= k < |peers| ==> !Pushes(id, x, y, peers[k], sqrt) {
        assert forall k :: 0 <= k < n ==> peers[..n][k] == peers[k];
        assert !Pushes(id, x, y, peers[n], sqrt);
      }
    }
  }

  /** The velocity after integrating the force over `dt` (the mass is 1)
      and applying friction: with no force, friction only slows it. */
  function Integrate(v: Vec, f: Vec, dt: real): (r: Vec)
    ensures f == Vec(0.0, 0.0) ==> Abs(r.x) <= Abs(v.x) && Abs(r.y) <= Abs(v.y)
  {
    Vec((v.x + f.x * dt) * Friction, (v.y + f.y * dt) * Friction)
  }

  /** The speed cap: the result never exceeds `InfoMaxSpeed`; a velocity
      within it is returned untouched, and a faster one is scaled down onto
      the cap exactly, keeping its direction (parallel to `v`, same signs). */
  function CapSpeed(v: Vec, sqrt: real -> real): (r: Vec)
    requires IsSquareRoot(sqrt)
    ensures r.x * r.x + r.y * r.y <= InfoMaxSpeed * InfoMaxSpeed
    ensures sqrt(v.x * v.x + v.y * v.y) <= InfoMaxSpeed ==> r == v
    ensures sqrt(v.x * v.x + v.y * v.y) > InfoMaxSpeed ==>
      && r.x * r.x + r.y * r.y == InfoMaxSpeed * InfoMaxSpeed
      && r.x * v.y == r.y * v.x
      && r.x * v.x >= 0.0 && r.y * v.y >= 0.0
  {
    var s := v.x * v.x + v.y * v.y;
    SquareNonNegative(v.x);
    SquareNonNegative(v.y);
    var speed := sqrt(s);
    if speed > InfoMaxSpeed then
      var reduction := InfoMaxSpeed / speed;
      ScaledBelowCap(v.x, v.y, s, speed, reduction);
      SameDirection(v.x, v.y, reduction);
      Vec(v.x * reduction, v.y * reduction)
    else
      SquareBelow(speed, InfoMaxSpeed);
      v
  }

  /** Scaling by `m / speed` brings the squared speed to exactly `m * m`. */
  lemma ScaledBelowCap(vx: real, vy: real, s: real, speed: real, k: real)
    requires s == vx * vx + vy * vy && speed > InfoMaxSpeed && speed * speed == s
    requires k == InfoMaxSpeed / speed
    ensures (vx * k) * (vx * k) + (vy * k) * (vy * k) == InfoMaxSpeed * InfoMaxSpeed
  {
    assert k * speed == InfoMaxSpeed;
    assert (vx * k) * (vx * k) == (vx * vx) * (k * k);
    assert (vy * k) * (vy * k) == (vy * vy) * (k * k);
    assert (vx * vx) * (k * k) + (vy * vy) * (k * k) == s * (k * k);
    assert s * (k * k) == (speed * speed) * (k * k);
    assert (speed * speed) * (k * k) == (k * speed) * (k * speed);
  }

  /** Scaling by a positive factor keeps a vector's direction. */
  lemma SameDirection(vx: real, vy: real, k: real)
    requires k > 0.0
    ensures (vx * k) * vy == (vy * k) * vx
    ensures (vx * k) * vx >= 0.0 && (vy * k) * vy >= 0.0
  {
    SquareNonNegative(vx);
    SquareNonNegative(vy);
    assert (vx * k) * vx == k * (vx * vx);
    assert (vy * k) * vy == k * (vy * vy);
    MulLeft(k, 0.0, vx * vx);
    MulLeft(k, 0.0, vy * vy);
  }
}
