/** The player and the information particles it collects. A particle lies
    free until the player passes within the collection radius; it is then
    attached for good and orbits the player. The two classes refer to each
    other, so they share a module. */
module Collecting {
  import opened Geometry
  import opened PlayerMotion
  import opened InfoForces

  /** Which of W, A, S and D are held down. */
  datatype Keys = Keys(w: bool, a: bool, s: bool, d: bool)

  /** Position and velocity of a moving body. */
  datatype Motion = Motion(x: real, y: real, vx: real, vy: real)

  /** The mouse-follow step: beyond one pixel from the target, each axis
      moves a tenth of the way there and is clamped into the bounds; the
      velocity is left alone. */
  function MouseStep(m: Motion, tx: real, ty: real, b: Bounds, sqrt: real -> real): (r: Motion)
    ensures r.vx == m.vx && r.vy == m.vy
    ensures Dist(tx - m.x, ty - m.y, sqrt) <= 1.0 ==> r == m
    ensures b.NonEmpty() && Dist(tx - m.x, ty - m.y, sqrt) > 1.0 ==> b.Contains(r.x, r.y)
    ensures b.NonEmpty() && b.Contains(m.x, m.y) ==> b.Contains(r.x, r.y)
    ensures Dist(tx - m.x, ty - m.y, sqrt) > 1.0 && b.Contains(m.x, m.y) && b.Contains(tx, ty) ==>
      Abs(tx - r.x) == (1.0 - MouseFollowSpeed) * Abs(tx - m.x)
      && Abs(ty - r.y) == (1.0 - MouseFollowSpeed) * Abs(ty - m.y)
  {
    if Dist(tx - m.x, ty - m.y, sqrt) > 1.0 then
      m.(x := Follow(m.x, tx, b.minX, b.maxX), y := Follow(m.y, ty, b.minY, b.maxY))
    else m
  }

  /** The keyboard step: each axis accelerates toward its key target (or
      decays), then moves and bounces off the bounds. The position ends in
      the bounds, the speed on an axis never grows past `MaxSpeed` unless it
      already was, and with no key on an axis it never grows at all. */
  function KeyStep(m: Motion, keys: Keys, b: Bounds, dt: real): (r: Motion)
    ensures b.NonEmpty() ==> b.Contains(r.x, r.y)
    ensures Abs(r.vx) <= Max(Abs(m.vx), MaxSpeed) && Abs(r.vy) <= Max(Abs(m.vy), MaxSpeed)
    ensures !keys.a && !keys.d ==> Abs(r.vx) <= Abs(m.vx)
    ensures !keys.w && !keys.s ==> Abs(r.vy) <= Abs(m.vy)
  {
    var ax := AxisBounce(m.x, AxisVelocity(m.vx, TargetAxis(keys.a, keys.d), dt), dt, b.minX, b.maxX);
    var ay := AxisBounce(m.y, AxisVelocity(m.vy, TargetAxis(keys.w, keys.s), dt), dt, b.minY, b.maxY);
    Motion(ax.p, ay.p, ax.v, ay.v)
  }

  /** The total force on a particle at `m` from a player at `(px, py)` and
      from its peers. Far from the player and with no peer close enough
      to push, it is the pure attraction toward the player. */
  function Pull(id: nat, m: Motion, px: real, py: real, peers: seq<Peer>, sqrt: real -> real): (f: Vec)
    requires IsSquareRoot(sqrt)
    ensures var (dx, dy) := (px - m.x, py - m.y);
      (forall k :: 0 <= k < |peers| ==> !Pushes(id, m.x, m.y, peers[k], sqrt))
      && Dist(dx, dy, sqrt) >= OrbitRange ==>
      f == Vec(Direction(dx, dy, Dist(dx, dy, sqrt)).x * AttractionForce,
               Direction(dx, dy, Dist(dx, dy, sqrt)).y * AttractionForce)
  {
    var dx := px - m.x;
    var dy := py - m.y;
    SquareNonNegative(dx);
    SquareNonNegative(dy);
    var pf := PlayerForce(dx, dy, Dist(dx, dy, sqrt));
    var qf := PeerForces(id, m.x, m.y, peers, sqrt);
    PeerForcesNeedNeighbours(id, m.x, m.y, peers, sqrt);
    Vec(pf.x + qf.x, pf.y + qf.y)
  }

  /** One step of an attached particle under force `f`: the force is
      integrated, friction applied and the speed capped, then the position
      moves and is clamped. The speed never exceeds `InfoMaxSpeed` and the
      particle stays in its bounds. */
  function InfoStep(m: Motion, f: Vec, b: Bounds, dt: real, sqrt: real -> real): (r: Motion)
    requires IsSquareRoot(sqrt)
    ensures r.vx * r.vx + r.vy * r.vy <= InfoMaxSpeed * InfoMaxSpeed
    ensures b.NonEmpty() ==> b.Contains(r.x, r.y)
  {
    var v := CapSpeed(Integrate(Vec(m.vx, m.vy), f, dt), sqrt);
    Motion(Clamp(m.x + v.x * dt, b.minX, b.maxX), Clamp(m.y + v.y * dt, b.minY, b.maxY), v.x, v.y)
  }

  /** What the pickup sees of a particle: whether it is free, and where. */
  datatype Loose = Loose(free: bool, x: real, y: real)

  /** Whether a player at `(px, py)` collects the particle seen as `v`. */
  predicate Reaches(px: real, py: real, v: Loose, radius: real, sqrt: real -> real) {
    v.free && Dist(px - v.x, py - v.y, sqrt) < radius
  }

  /** The particles, in list order, that a player at `(px, py)` collects:
      those free and closer than `radius`. `vs` describes `items`. */
  function Picked<T>(items: seq<T>, vs: seq<Loose>, px: real, py: real, radius: real,
                     sqrt: real -> real): seq<T>
    requires |items| == |vs|
  {
    if items == [] then []
    else
      var n := |items| - 1;
      Picked(items[..n], vs[..n], px, py, radius, sqrt)
      + (if Reaches(px, py, vs[n], radius, sqrt) then [items[n]] else [])
  }

  /** The pickup over one more particle collects it exactly when it is
      free and within reach. */
  lemma PickedStep<T>(items: seq<T>, vs: seq<Loose>, px: real, py: real, radius: real,
                      sqrt: real -> real, i: nat)
    requires |items| == |vs| && i < |items|
    ensures Picked(items[..i + 1], vs[..i + 1], px, py, radius, sqrt)
         == Picked(items[..i], vs[..i], px, py, radius, sqrt)
            + if Reaches(px, py, vs[i], radius, sqrt) then [items[i]] else []
  {
    assert items[..i + 1][..i] == items[..i] && vs[..i + 1][..i] == vs[..i];
  }

  /** Every collected particle was free and within reach. */
  lemma {:induction false} PickedAreFreeAndNear<T>(items: seq<T>, vs: seq<Loose>, px: real, py: real,
                                                   radius: real, sqrt: real -> real, t: T)
    requires |items| == |vs| && t in Picked(items, vs, px, py, radius, sqrt)
    ensures exists k :: 0 <= k < |items| && items[k] == t && Reaches(px, py, vs[k], radius, sqrt)
  {
    var n := |items| - 1;
    if t in Picked(items[..n], vs[..n], px, py, radius, sqrt) {
      PickedAreFreeAndNear(items[..n], vs[..n], px, py, radius, sqrt, t);
      var k :| 0 <= k < n && items[..n][k] == t && Reaches(px, py, vs[..n][k], radius, sqrt);
      assert items[k] == t && vs[k] == vs[..n][k];
    } else {
      assert items[n] == t;
    }
  }

  /** Collecting from a list without repeats collects nothing twice. */
  lemma {:induction false} PickedDistinct<T>(items: seq<T>, vs: seq<Loose>, px: real, py: real,
                                             radius: real, sqrt: real -> real)
    requires |items| == |vs| && Distinct(items)
    ensures Distinct(Picked(items, vs, px, py, radius, sqrt))
  {
    if items != [] {
      var n := |items| - 1;
      var rest := Picked(items[..n], vs[..n], px, py, radius, sqrt);
      PickedDistinct(items[..n], vs[..n], px, py, radius, sqrt);
      if items[n] in rest {
        PickedAreFreeAndNear(items[..n], vs[..n], px, py, radius, sqrt, items[n]);
      }
    }
  }

  /** A free particle within reach is collected. */
  lemma {:induction false} NearFreeArePicked<T>(items: seq<T>, vs: seq<Loose>, px: real, py: real,
                                                radius: real, sqrt: real -> real, k: nat)
    requires |items| == |vs| && k < |items| && Reaches(px, py, vs[k], radius, sqrt)
    ensures items[k] in Picked(items, vs, px, py, radius, sqrt)
  {
    var n := |items| - 1;
    if k < n {
      NearFreeArePicked(items[..n], vs[..n], px, py, radius, sqrt, k);
    }
  }

  /** Sums the peer repulsion over the other particles, in list order (the
      `forEach` of `Information.update`); peers that do not push add nothing. */
  method SumPeerForces(id: nat, x: real, y: real, peers: seq<Peer>, sqrt: real -> real) returns (f: Vec)
    ensures f == PeerForces(id, x, y, peers, sqrt)
    ensures (forall k :: 0 <= k < |peers| ==> !Pushes(id, x, y, peers[k], sqrt)) ==> f == Vec(0.0, 0.0)
  {
    f := Vec(0.0, 0.0);
    var i := 0;
    while i < |peers|
      invariant 0 <= i <= |peers|
      invariant f == PeerForces(id, x, y, peers[..i], sqrt)
    {
      assert peers[..i + 1][..i] == peers[..i];
      var p := PeerForce(id, x, y, peers[i], sqrt);
      f := Vec(f.x + p.x, f.y + p.y);
      i := i + 1;
    }
    assert peers[..i] == peers;
    PeerForcesNeedNeighbours(id, x, y, peers, sqrt);
  }

  /** The force half of `Information.update`: the player's force plus the
      peers' repulsion summed by the loop. */
  method TotalForce(id: nat, m: Motion, px: real, py: real, peers: seq<Peer>, sqrt: real -> real) returns (f: Vec)
    requires IsSquareRoot(sqrt)
    ensures f == Pull(id, m, px, py, peers, sqrt)
  {
    var dx := px - m.x;
    var dy := py - m.y;
    SquareNonNegative(dx);
    SquareNonNegative(dy);
    var pf := PlayerForce(dx, dy, Dist(dx, dy, sqrt));
    var qf := SumPeerForces(id, m.x, m.y, peers, sqrt);
    f := Vec(pf.x + qf.x, pf.y + qf.y);
  }

  class Player {
    const id: nat
    const bounds: Bounds
    var x: real
    var y: real
    var vx: real
    var vy: real
    var attachedInfo: seq<Information>
    var mouseTarget: Option<(real, real)>

    /** The player starts at the centre of the scene width, above the road
        and wall, at rest, holding nothing, with no mouse target. */
    constructor (id: nat, width: real, height: real, roadHeight: real, wallHeight: real)
      ensures this.id == id
      ensures x == width / 2.0 && y == height / 2.0 - roadHeight - wallHeight
      ensures bounds == MovementBounds(width, height, roadHeight, wallHeight)
      ensures vx == 0.0 && vy == 0.0 && attachedInfo == [] && mouseTarget == None
    {
      this.id := id;
      x := width / 2.0;
      y := height / 2.0 - roadHeight - wallHeight;
      bounds := MovementBounds(width, height, roadHeight, wallHeight);
      vx, vy := 0.0, 0.0;
      attachedInfo := [];
      mouseTarget := None;
    }

    /** The `pointermove` listener: remembers the pointer as the target. */
    method PointerMove(px: real, py: real)
      modifies this
      ensures mouseTarget == Some((px, py))
      ensures x == old(x) && y == old(y) && vx == old(vx) && vy == old(vy)
      ensures attachedInfo == old(attachedInfo)
    {
      mouseTarget := Some((px, py));
    }

    /** `getSpeed`: the non-negative length of the velocity. */
    function GetSpeed(sqrt: real -> real): (r: real)
      reads this
      requires IsSquareRoot(sqrt)
      ensures r >= 0.0 && r * r == vx * vx + vy * vy
    {
      SquareNonNegative(vx);
      SquareNonNegative(vy);
      sqrt(vx * vx + vy * vy)
    }

    /** The player's position and velocity. */
    function Kinematics(): Motion
      reads this
    {
      Motion(x, y, vx, vy)
    }

    /** `update`: the mouse-follow step when a target is set (debug mode is
        always on), the keyboard step otherwise; then every free particle
        within the pulsing collection radius of the new position is
        attached and appended, in list order. */
    method Update(delta: real, pulse: real, keys: Keys, infos: seq<Information>, sqrt: real -> real)
      requires 0.0 <= pulse <= 1.0
      requires forall j, k :: 0 <= j < k < |infos| ==> infos[j] != infos[k]
      modifies this, set i | i in infos
      ensures Kinematics() == match old(mouseTarget)
        case Some((tx, ty)) => MouseStep(old(Kinematics()), tx, ty, bounds, sqrt)
        case None => KeyStep(old(Kinematics()), keys, bounds, delta / 1000.0)
      ensures mouseTarget == old(mouseTarget)
      ensures attachedInfo == old(attachedInfo) + Picked(infos, old(Views(infos)), x, y, CollectionRadius(pulse), sqrt)
      ensures forall k :: 0 <= k < |infos| ==>
        if Reaches(x, y, old(Views(infos))[k], CollectionRadius(pulse), sqrt)
        then infos[k].isAttached && infos[k].player == this && infos[k].Kinematics() == old(infos[k].Kinematics())
        else unchanged(infos[k])
    {
      var collectionRadius := CollectionRadius(pulse);
      Move(delta, keys, sqrt);
      Collect(infos, collectionRadius, sqrt);
    }

    /** The movement half of `update`. */
    method Move(delta: real, keys: Keys, sqrt: real -> real)
      modifies this`x, this`y, this`vx, this`vy
      ensures Kinematics() == match mouseTarget
        case Some((tx, ty)) => MouseStep(old(Kinematics()), tx, ty, bounds, sqrt)
        case None => KeyStep(old(Kinematics()), keys, bounds, delta / 1000.0)
    {
      var dt := delta / 1000.0;
      if mouseTarget.Some? {
        var (tx, ty) := mouseTarget.value;
        var dx := tx - x;
        var dy := ty - y;
        if Dist(dx, dy, sqrt) > 1.0 {
          x := Clamp(x + dx * MouseFollowSpeed, bounds.minX, bounds.maxX);
          y := Clamp(y + dy * MouseFollowSpeed, bounds.minY, bounds.maxY);
        }
      } else {
        vx := AxisVelocity(vx, TargetAxis(keys.a, keys.d), dt);
        vy := AxisVelocity(vy, TargetAxis(keys.w, keys.s), dt);
        var nx := AxisBounce(x, vx, dt, bounds.minX, bounds.maxX);
        var ny := AxisBounce(y, vy, dt, bounds.minY, bounds.maxY);
        x, vx := nx.p, nx.v;
        y, vy := ny.p, ny.v;
      }
    }

    /** The pickup `forEach` of `update`. */
    method Collect(infos: seq<Information>, radius: real, sqrt: real -> real)
      requires forall j, k :: 0 <= j < k < |infos| ==> infos[j] != infos[k]
      modifies this`attachedInfo, infos
      ensures attachedInfo == old(attachedInfo) + Picked(infos, old(Views(infos)), x, y, radius, sqrt)
      ensures forall k :: 0 <= k < |infos| ==>
        if Reaches(x, y, old(Views(infos))[k], radius, sqrt)
        then infos[k].isAttached && infos[k].player == this && infos[k].Kinematics() == old(infos[k].Kinematics())
        else unchanged(infos[k])
    {
      ghost var views := Views(infos);
      for i := 0 to |infos|
        invariant attachedInfo == old(attachedInfo) + Picked(infos[..i], views[..i], x, y, radius, sqrt)
        invariant forall k :: 0 <= k < i ==>
          if Reaches(x, y, views[k], radius, sqrt)
          then infos[k].isAttached && infos[k].player == this && infos[k].Kinematics() == old(infos[k].Kinematics())
          else unchanged(infos[k])
        invariant forall k :: i <= k < |infos| ==> unchanged(infos[k])
      {
        PickedStep(infos, views, x, y, radius, sqrt, i);
        assert views[i] == Loose(!infos[i].isAttached, infos[i].x, infos[i].y);
        CollectOne(infos[i], radius, sqrt);
      }
      assert infos[..|infos|] == infos && views[..|infos|] == views;
    }

    /** One particle of the pickup: a free particle within reach is
        attached to this player and appended to its list. */
    method CollectOne(info: Information, radius: real, sqrt: real -> real)
      modifies this`attachedInfo, info`player, info`isAttached
      ensures var seen := Loose(!old(info.isAttached), old(info.x), old(info.y));
        if Reaches(x, y, seen, radius, sqrt)
        then attachedInfo == old(attachedInfo) + [info]
          && info.isAttached && info.player == this && info.Kinematics() == old(info.Kinematics())
        else attachedInfo == old(attachedInfo) && unchanged(info)
    {
      if Reaches(x, y, Loose(!info.isAttached, info.x, info.y), radius, sqrt) {
        info.AttachTo(this);
        attachedInfo := attachedInfo + [info];
      }
    }
  }

  /** What the pickup sees of each particle, in order. */
  function Views(infos: seq<Information>): (vs: seq<Loose>)
    reads set i | i in infos
    ensures |vs| == |infos|
    ensures forall k :: 0 <= k < |infos| ==> vs[k] == Loose(!infos[k].isAttached, infos[k].x, infos[k].y)
  {
    if infos == [] then []
    else
      var last := infos[|infos| - 1];
      Views(infos[..|infos| - 1]) + [Loose(!last.isAttached, last.x, last.y)]
  }

  class Information {
    const id: nat
    /** The bounds it was given, inset by its largest radius. */
    const bounds: Bounds
    var x: real
    var y: real
    var vx: real
    var vy: real
    var player: Player?
    var isAttached: bool

    /** A new particle is free, at rest, inside its inset bounds. */
    constructor (id: nat, x0: real, y0: real, given: Bounds)
      ensures this.id == id && bounds == Inset(given)
      ensures x == Clamp(x0, bounds.minX, bounds.maxX) && y == Clamp(y0, bounds.minY, bounds.maxY)
      ensures bounds.NonEmpty() ==> bounds.Contains(x, y)
      ensures vx == 0.0 && vy == 0.0 && player == null && !isAttached
    {
      this.id := id;
      bounds := Inset(given);
      x := Clamp(x0, Inset(given).minX, Inset(given).maxX);
      y := Clamp(y0, Inset(given).minY, Inset(given).maxY);
      vx, vy := 0.0, 0.0;
      player := null;
      isAttached := false;
    }

    /** What other particles see of this one. */
    function AsPeer(): Peer
      reads this
    {
      Peer(id, x, y)
    }

    /** `attachTo`: records the player and nothing else. */
    method AttachTo(p: Player)
      modifies this`player, this`isAttached
      ensures player == p && isAttached
    {
      player := p;
      isAttached := true;
    }

    /** The particle's position and velocity. */
    function Kinematics(): Motion
      reads this
    {
      Motion(x, y, vx, vy)
    }

    /** `update`: without a player nothing happens; otherwise one
        `InfoStep` toward the player. */
    method Update(delta: real, peers: seq<Peer>, sqrt: real -> real)
      requires IsSquareRoot(sqrt)
      modifies this
      ensures old(player) == null ==> unchanged(this)
      ensures player == old(player) && isAttached == old(isAttached)
      ensures old(player) != null ==>
        Kinematics() == InfoStep(old(Kinematics()), Pull(id, old(Kinematics()), player.x, player.y, peers, sqrt),
                                 bounds, delta / 1000.0, sqrt)
    {
      if player == null {
        return;
      }
      var dt := delta / 1000.0;
      var f := TotalForce(id, Kinematics(), player.x, player.y, peers, sqrt);
      var next := InfoStep(Kinematics(), f, bounds, dt, sqrt);
      x, y, vx, vy := next.x, next.y, next.vx, next.vy;
    }
  }
}
