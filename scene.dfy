/** The game scene: it owns the holes, the pedestrians, the player and the
    information particles, places them, lets each pedestrian that passes a
    random gate reserve the first free hole in reach, and pushes the debug
    mode to every object through the `debugMode` signal. Its invariants tie
    the objects together: a hole's customer is a pedestrian that targets it,
    and a particle is attached exactly when the player holds it. */
module Scenes {
  import opened Geometry
  import opened Constants
  import opened Node
  import opened Pedestrians
  import opened PlayerMotion
  import opened InfoForces
  import opened Collecting

  const NumHoles: nat := 3
  const InitialInformations: nat := 5
  /** The per-frame chance that a pedestrian looks for a hole. */
  const OrderChance: real := 0.1
  /** The callback id under which `updateDebug` listens. */
  const UpdateDebugCallback: nat := 0
  const DebugSignal: string := "debugMode"

  // ---------------------------------------------------------------- layout

  /** The `x` of hole `i`: the scene width split into `NumHoles + 1` equal
      gaps. */
  function HoleX(width: real, i: nat): real {
    width / (NumHoles as real + 1.0) * (i as real + 1.0)
  }

  /** The holes lie strictly inside the scene, left to right, one gap of a
      quarter width apart. */
  lemma HolesSpread(width: real, i: nat, j: nat)
    requires width > 0.0 && i < j < NumHoles
    ensures 0.0 < HoleX(width, i) < HoleX(width, j) < width
    ensures HoleX(width, i + 1) - HoleX(width, i) == width / 4.0
  {
    assert HoleX(width, j) - HoleX(width, i) == width / 4.0 * (j - i) as real;
  }

  /** The `x` of the `count`-th pedestrian spawned, for `people` planned. */
  function CustomerX(width: real, people: nat, count: nat): real {
    width / (people as real + 1.0) * (count as real + 1.0)
  }

  /** The planned pedestrians start strictly inside the scene, spread out
      left to right; later spawns land at or beyond the right edge. */
  lemma CustomersSpread(width: real, people: nat, i: nat, j: nat)
    requires width > 0.0 && i < j
    ensures 0.0 < CustomerX(width, people, i) < CustomerX(width, people, j)
    ensures j < people ==> CustomerX(width, people, j) < width
    ensures people <= i ==> width <= CustomerX(width, people, i)
  {
    var gap := width / (people as real + 1.0);
    assert gap > 0.0;
    assert CustomerX(width, people, j) - CustomerX(width, people, i) == gap * (j - i) as real;
    assert width == gap * (people as real + 1.0);
  }

  /** The road walkers are kept on: the road strip at the bottom of the
      scene, one person's diameter in from each edge. It is a proper strip
      exactly when the road is at least two diameters high, and it lies
      inside the road. */
  function RoadExtent(height: real, cfg: Config): (r: Road)
    ensures r.top <= r.bottom <==> cfg.roadHeight >= 4.0 * cfg.personRadius
    ensures r.bottom - r.top == cfg.roadHeight - 4.0 * cfg.personRadius
    ensures cfg.Valid() ==> height - cfg.roadHeight < r.top && r.bottom < height
  {
    Road(height - cfg.roadHeight + cfg.personRadius * 2.0, height - cfg.personRadius * 2.0)
  }

  // ---------------------------------------------------------------- queries

  /** `filter(p => p !== me)`. */
  function Without<T(==)>(s: seq<T>, me: T): seq<T> {
    if s == [] then []
    else (if s[0] == me then [] else [s[0]]) + Without(s[1..], me)
  }

  /** `Without` keeps exactly the other elements, all at once. */
  lemma WithoutAllMembers<T>(s: seq<T>, me: T)
    ensures forall k :: 0 <= k < |Without(s, me)| ==> Without(s, me)[k] in s && Without(s, me)[k] != me
    ensures forall k :: 0 <= k < |s| && s[k] != me ==> s[k] in Without(s, me)
  {
    forall k | 0 <= k < |Without(s, me)|
      ensures Without(s, me)[k] in s && Without(s, me)[k] != me
    {
      WithoutMembers(s, me, Without(s, me)[k]);
    }
    forall k | 0 <= k < |s| && s[k] != me
      ensures s[k] in Without(s, me)
    {
      WithoutMembers(s, me, s[k]);
    }
  }

  /** `Without` keeps exactly the other elements. */
  lemma {:induction false} WithoutMembers<T>(s: seq<T>, me: T, x: T)
    ensures x in Without(s, me) <==> x in s && x != me
  {
    if s != [] {
      WithoutMembers(s[1..], me, x);
      assert s == [s[0]] + s[1..];
    }
  }

  /** Without `me` in the list nothing is removed. */
  lemma {:induction false} WithoutAbsent<T>(s: seq<T>, me: T)
    requires me !in s
    ensures Without(s, me) == s
  {
    if s != [] {
      assert me !in s[1..];
      WithoutAbsent(s[1..], me);
      assert s == [s[0]] + s[1..];
    }
  }

  /** With `me` once in the list, at `k`, exactly that element is removed
      and the others keep their order. */
  lemma {:induction false} WithoutOnce<T>(s: seq<T>, k: nat)
    requires k < |s| && forall j :: 0 <= j < |s| && j != k ==> s[j] != s[k]
    ensures Without(s, s[k]) == s[..k] + s[k + 1..]
  {
    if k == 0 {
      assert s[k] !in s[1..];
      WithoutAbsent(s[1..], s[k]);
    } else {
      assert s[1..][k - 1] == s[k];
      WithoutOnce(s[1..], k - 1);
      assert s[1..][..k - 1] == s[1..k];
      assert s[1..][k..] == s[k + 1..];
      assert s[..k] == [s[0]] + s[1..k];
    }
  }

  /** What each pedestrian shows the others. */
  function Neighbours(ps: seq<Person>): (r: seq<Neighbour>)
    reads set p | p in ps
    ensures |r| == |ps|
    ensures forall k :: 0 <= k < |ps| ==> r[k] == ps[k].AsNeighbour()
  {
    if ps == [] then [] else Neighbours(ps[..|ps| - 1]) + [ps[|ps| - 1].AsNeighbour()]
  }

  /** What each particle shows the others. */
  function Peers(infos: seq<Information>): (r: seq<Peer>)
    reads set i | i in infos
    ensures |r| == |infos|
    ensures forall k :: 0 <= k < |infos| ==> r[k] == infos[k].AsPeer()
  {
    if infos == [] then [] else Peers(infos[..|infos| - 1]) + [infos[|infos| - 1].AsPeer()]
  }

  /** The test of the `holes.find` in `update`, on a hole at `hx` held by
      `holder`: within `holeWidth` of `px`, and free. */
  predicate InReachAndFree(hx: real, holder: Person?, px: real, holeWidth: real) {
    Abs(hx - px) < holeWidth && holder == null
  }

  /** The state of every pedestrian. */
  function Snaps(people: seq<Person>): (r: seq<Snapshot>)
    reads set p | p in people
    ensures |r| == |people| && forall k :: 0 <= k < |people| ==> r[k] == people[k].Snap()
  {
    if people == [] then [] else Snaps(people[..|people| - 1]) + [people[|people| - 1].Snap()]
  }

  /** Who holds each hole (`null` for a free one). */
  function Holders(holes: seq<Hole>): (r: seq<Person?>)
    reads set h | h in holes
    ensures |r| == |holes| && forall j :: 0 <= j < |holes| ==> r[j] == holes[j].currentCustomer
  {
    if holes == [] then [] else Holders(holes[..|holes| - 1]) + [holes[|holes| - 1].currentCustomer]
  }

  /** With holders `held`, no hole before position `j` passes the test. */
  predicate NoneBefore(holes: seq<Hole>, held: seq<Person?>, px: real, holeWidth: real, j: nat)
    requires |held| == |holes|
  {
    forall i :: 0 <= i < j && i < |holes| ==> !InReachAndFree(holes[i].x, held[i], px, holeWidth)
  }

  /** With holders `held`, position `j` holds the hole `holes.find(...)`
      returns. */
  predicate FirstNearby(holes: seq<Hole>, held: seq<Person?>, px: real, holeWidth: real, j: nat)
    requires |held| == |holes|
  {
    j < |holes| && InReachAndFree(holes[j].x, held[j], px, holeWidth) && NoneBefore(holes, held, px, holeWidth, j)
  }

  /** With holders `held`, `holes.find(...)` returns `undefined`. */
  predicate NoneNearby(holes: seq<Hole>, held: seq<Person?>, px: real, holeWidth: real)
    requires |held| == |holes|
  {
    NoneBefore(holes, held, px, holeWidth, |holes|)
  }

  /** The hole `holes.find(...)` returns is unique, and there is none
      exactly when no hole passes the test. */
  lemma FirstNearbyUnique(holes: seq<Hole>, held: seq<Person?>, px: real, holeWidth: real, j: nat, j': nat)
    requires |held| == |holes| && FirstNearby(holes, held, px, holeWidth, j)
    ensures FirstNearby(holes, held, px, holeWidth, j') ==> j == j'
    ensures !NoneNearby(holes, held, px, holeWidth)
  {
  }

  /** When some hole among the first `n` passes the test, `holes.find(...)`
      returns one of them. */
  lemma {:induction false} FirstNearbyExists(holes: seq<Hole>, held: seq<Person?>, px: real, holeWidth: real, n: nat)
    requires |held| == |holes| && n <= |holes| && !NoneBefore(holes, held, px, holeWidth, n)
    ensures exists j: nat :: j < n && FirstNearby(holes, held, px, holeWidth, j)
  {
    if NoneBefore(holes, held, px, holeWidth, n - 1) {
      assert FirstNearby(holes, held, px, holeWidth, n - 1);
    } else {
      FirstNearbyExists(holes, held, px, holeWidth, n - 1);
    }
  }

  /** Holes only get taken, never freed or handed over, going from holders
      `held` to holders `held'`. */
  predicate OnlyTaken(held: seq<Person?>, held': seq<Person?>) {
    |held| == |held'| && forall j :: 0 <= j < |held| && held[j] != null ==> held'[j] == held[j]
  }

  /** What one turn of `update` does with pedestrian `me`: its state goes
      from `s0` to `now` and the holders of the holes from `held` to
      `held'`. Below the gate, or not walking, nothing changes; past it the
      walker looks for the first hole in reach and free under `held`: with
      none, or when that hole is the one it visited last, nothing changes;
      otherwise it reserves that hole and approaches it with the revisit
      cooldown restarted. */
  predicate OfferedAt(me: Person, now: Snapshot, draw: real, s0: Snapshot, holes: seq<Hole>,
                      held: seq<Person?>, held': seq<Person?>, cfg: Config)
    requires |held| == |holes|
  {
    var px := s0.body.x;
    var w := cfg.holeWidth;
    if draw >= OrderChance || s0.body.mode != Walking || NoneNearby(holes, held, px, w) then
      now == s0 && held' == held
    else
      forall j: nat :: j < |holes| && FirstNearby(holes, held, px, w, j) ==>
        if holes[j] == s0.lastVisitedHole then now == s0 && held' == held
        else
          && now == Snapshot(s0.body.(mode := Approaching), holes[j], holes[j], cfg.holeRevisitCooldown)
          && held' == held[j := me]
  }

  /** A turn fixes its outcome: the pedestrian's new state and the new
      holders are determined by its state, its draw and the holders it
      found. */
  lemma OfferedAtDetermined(me: Person, draw: real, s0: Snapshot, holes: seq<Hole>, held: seq<Person?>, cfg: Config,
                            now1: Snapshot, held1: seq<Person?>, now2: Snapshot, held2: seq<Person?>)
    requires |held| == |holes|
    requires OfferedAt(me, now1, draw, s0, holes, held, held1, cfg)
    requires OfferedAt(me, now2, draw, s0, holes, held, held2, cfg)
    ensures now1 == now2 && held1 == held2
  {
    var px, w := s0.body.x, cfg.holeWidth;
    if !(draw >= OrderChance || s0.body.mode != Walking || NoneNearby(holes, held, px, w)) {
      FirstNearbyExists(holes, held, px, w, |holes|);
      var j: nat :| j < |holes| && FirstNearby(holes, held, px, w, j);
    }
  }

  /** A turn only takes a free hole, for the pedestrian whose turn it is,
      and that hole is the one it now targets. */
  lemma OfferedOnlyTakes(me: Person, now: Snapshot, draw: real, s0: Snapshot, holes: seq<Hole>,
                         held: seq<Person?>, held': seq<Person?>, cfg: Config)
    requires |held| == |holes| && OfferedAt(me, now, draw, s0, holes, held, held', cfg)
    ensures OnlyTaken(held, held')
    ensures forall j :: 0 <= j < |held| && held'[j] != held[j] ==>
      held[j] == null && held'[j] == me && now.targetHole == holes[j]
  {
    var px, w := s0.body.x, cfg.holeWidth;
    if !(draw >= OrderChance || s0.body.mode != Walking || NoneNearby(holes, held, px, w)) {
      FirstNearbyExists(holes, held, px, w, |holes|);
      var j: nat :| j < |holes| && FirstNearby(holes, held, px, w, j);
    }
  }

  /** A walker past the gate with no hole in reach and free stays as it was. */
  lemma OfferFindsNone(me: Person, draw: real, s0: Snapshot, holes: seq<Hole>, held: seq<Person?>, cfg: Config)
    requires |held| == |holes| && NoneNearby(holes, held, s0.body.x, cfg.holeWidth)
    ensures OfferedAt(me, s0, draw, s0, holes, held, held, cfg)
  {
  }

  /** A walker past the gate whose first hole in reach and free is the one
      it visited last stays as it was. */
  lemma OfferDeclined(me: Person, draw: real, s0: Snapshot, holes: seq<Hole>, held: seq<Person?>, cfg: Config, j: nat)
    requires |held| == |holes| && FirstNearby(holes, held, s0.body.x, cfg.holeWidth, j)
    requires holes[j] == s0.lastVisitedHole
    ensures OfferedAt(me, s0, draw, s0, holes, held, held, cfg)
  {
    forall j': nat | FirstNearby(holes, held, s0.body.x, cfg.holeWidth, j')
      ensures j' == j
    {
      FirstNearbyUnique(holes, held, s0.body.x, cfg.holeWidth, j, j');
    }
  }

  /** A walker past the gate whose first hole in reach and free is not the
      one it visited last takes that hole and approaches it. */
  lemma OfferTaken(me: Person, draw: real, s0: Snapshot, holes: seq<Hole>, held: seq<Person?>, cfg: Config, j: nat)
    requires |held| == |holes| && FirstNearby(holes, held, s0.body.x, cfg.holeWidth, j)
    requires draw < OrderChance && s0.body.mode == Walking && holes[j] != s0.lastVisitedHole
    ensures OfferedAt(me, Snapshot(s0.body.(mode := Approaching), holes[j], holes[j], cfg.holeRevisitCooldown),
                      draw, s0, holes, held, held[j := me], cfg)
  {
    forall j': nat | FirstNearby(holes, held, s0.body.x, cfg.holeWidth, j')
      ensures j' == j
    {
      FirstNearbyUnique(holes, held, s0.body.x, cfg.holeWidth, j, j');
    }
  }

  /** `holes.find(...)`: the first hole, in list order, within
      `holeWidth` of `px` and free; none when there is no such hole. */
  method FindNearbyHole(holes: seq<Hole>, px: real, holeWidth: real) returns (found: Option<nat>)
    ensures found.Some? ==> FirstNearby(holes, Holders(holes), px, holeWidth, found.value)
    ensures found.None? ==> NoneNearby(holes, Holders(holes), px, holeWidth)
  {
    var i := 0;
    while i < |holes|
      invariant 0 <= i <= |holes|
      invariant NoneBefore(holes, Holders(holes), px, holeWidth, i)
    {
      if Abs(holes[i].x - px) < holeWidth && holes[i].IsAvailable() {
        return Some(i);
      }
      i := i + 1;
    }
    return None;
  }

  // ---------------------------------------------------------------- the scene

  class GameScene {
    const width: real
    const height: real
    const cfg: Config
    /** The id counter every game object draws from. */
    const ids: IdCounter
    const signals: SignalRegistry
    var customers: seq<Person>
    var holes: seq<Hole>
    var player: Player?
    var informations: seq<Information>
    var debugMode: bool
    /** The debug mode `updateDebug` last pushed to every object. */
    var shownDebug: bool
    var roadTop: real
    var roadBottom: real

    /** Holes and pedestrians agree on reservations: a hole's customer is a
        pedestrian that targets it, a pedestrian targets a hole exactly while
        it approaches or orders, and then it is that hole's customer. */
    ghost predicate Occupancy()
      reads this, set h | h in holes, set p | p in customers
    {
      && Distinct(holes) && Distinct(customers)
      && (forall h :: h in holes && h.currentCustomer != null ==>
            h.currentCustomer in customers && h.currentCustomer.targetHole == h)
      && (forall p :: p in customers ==> (p.targetHole != null <==> Stationary(p.mode)))
      && (forall p :: p in customers && p.targetHole != null ==>
            p.targetHole in holes && p.targetHole.currentCustomer == p)
    }

    /** The player and the particles agree on attachment: a particle is
        attached exactly when it has a player, that player is the scene's,
        and the player's list holds exactly the attached particles, once. */
    ghost predicate Attachment()
      reads this, player, set i | i in informations
    {
      && player != null && Distinct(informations) && Distinct(player.attachedInfo)
      && (forall i :: i in informations ==> (i.isAttached <==> i.player != null))
      && (forall i :: i in informations && i.player != null ==> i.player == player)
      && (forall i :: i in player.attachedInfo ==> i in informations && i.isAttached)
      && (forall i :: i in informations && i.isAttached ==> i in player.attachedInfo)
    }

    /** The `debugMode` signal has `updateDebug` as its one listener, it last
        saw the current mode (or still holds its falsy default), and the
        objects show the current mode. */
    ghost predicate DebugSynced()
      reads this, signals
    {
      && DebugSignal in signals.signals
      && |signals.signals[DebugSignal]| == 1
      && signals.signals[DebugSignal][0].callback == UpdateDebugCallback
      && (signals.signals[DebugSignal][0].oldValue == Bool(false)
          || signals.signals[DebugSignal][0].oldValue == Args([Bool(debugMode)]))
      && shownDebug == debugMode
    }

    ghost predicate Valid()
      reads this, signals, player, set h | h in holes, set p | p in customers, set i | i in informations
    {
      Occupancy() && Attachment() && DebugSynced()
    }

    constructor (width: real, height: real, cfg: Config, ids: IdCounter)
      ensures this.width == width && this.height == height && this.cfg == cfg && this.ids == ids
      ensures customers == [] && holes == [] && player == null && informations == []
      ensures !debugMode && !shownDebug && roadTop == 0.0 && roadBottom == 0.0
      ensures fresh(signals) && signals.signals == map[]
    {
      this.width := width;
      this.height := height;
      this.cfg := cfg;
      this.ids := ids;
      signals := new SignalRegistry();
      customers := [];
      holes := [];
      player := null;
      informations := [];
      debugMode := false;
      shownDebug := false;
      roadTop := 0.0;
      roadBottom := 0.0;
    }

    /** `getOtherPeople`. */
    function GetOtherPeople(me: Person): (r: seq<Person>)
      reads this
      ensures forall k :: 0 <= k < |r| ==> r[k] in customers && r[k] != me
      ensures forall k :: 0 <= k < |customers| && customers[k] != me ==> customers[k] in r
    {
      WithoutAllMembers(customers, me);
      Without(customers, me)
    }

    /** `getRoadSize`: the band pedestrians walk in, as `CreateStreet` stored it. */
    function GetRoadSize(): (r: Road)
      reads this
      ensures r.top == roadTop && r.bottom == roadBottom
    {
      Road(roadTop, roadBottom)
    }

    /** `createUI`: the road extent, the holes along the wall, the planned
        pedestrians, the `debugMode` listener, the player and the first
        particles. The buttons are not part of the scene's state. */
    method CreateUI(people: seq<PersonDraw>, infoDraws: seq<(real, real)>)
      requires customers == [] && holes == [] && informations == [] && player == null
      requires signals.signals == map[] && !debugMode && !shownDebug
      requires |people| == cfg.personNumber && |infoDraws| == InitialInformations
      requires forall k :: 0 <= k < |people| ==> people[k].Valid(RoadExtent(height, cfg), cfg)
      modifies this, ids, signals
      ensures Valid()
      ensures GetRoadSize() == RoadExtent(height, cfg)
      ensures |holes| == NumHoles
      ensures forall k :: 0 <= k < NumHoles ==>
        holes[k].x == HoleX(width, k) && holes[k].y == cfg.wallY && holes[k].IsAvailable()
      ensures |customers| == cfg.personNumber
      ensures forall k :: 0 <= k < |customers| ==>
        customers[k].x == CustomerX(width, cfg.personNumber, k) && customers[k].mode == Walking
      ensures |informations| == InitialInformations
      ensures forall k :: 0 <= k < |informations| ==> !informations[k].isAttached
    {
      CreateStreet(people);
      CreateActors(infoDraws);
    }

    /** The listener, player and particle part of `createUI`. */
    method CreateActors(infoDraws: seq<(real, real)>)
      requires informations == [] && player == null
      requires signals.signals == map[] && !debugMode && !shownDebug
      modifies this`player, this`informations, ids, signals
      ensures Attachment() && DebugSynced()
      ensures |informations| == |infoDraws|
      ensures forall k :: 0 <= k < |informations| ==> !informations[k].isAttached
    {
      signals.AddSignal(DebugSignal, UpdateDebugCallback, Bool(debugMode));
      var id := ids.Next();
      player := new Player(id, width, height, cfg.roadHeight, cfg.wallHeight);
      SpawnInformations(infoDraws);
    }

    /** The road, hole and pedestrian part of `createUI`. */
    method CreateStreet(people: seq<PersonDraw>)
      requires customers == [] && holes == []
      requires forall k :: 0 <= k < |people| ==> people[k].Valid(RoadExtent(height, cfg), cfg)
      modifies this`roadTop, this`roadBottom, this`holes, this`customers, ids
      ensures Occupancy()
      ensures GetRoadSize() == RoadExtent(height, cfg)
      ensures |holes| == NumHoles
      ensures forall k :: 0 <= k < NumHoles ==>
        holes[k].x == HoleX(width, k) && holes[k].y == cfg.wallY && holes[k].IsAvailable()
      ensures |customers| == |people|
      ensures forall k :: 0 <= k < |customers| ==>
        customers[k].x == CustomerX(width, cfg.personNumber, k) && customers[k].mode == Walking
      ensures forall k :: 0 <= k < |customers| ==>
        roadTop + cfg.personRadius - 1.0 < customers[k].y < roadBottom - cfg.personRadius + 1.0
    {
      var road := RoadExtent(height, cfg);
      roadTop, roadBottom := road.top, road.bottom;
      CreateHoles();
      SpawnCustomers(people);
    }

    /** The hole loop of `createUI`. */
    method CreateHoles()
      requires customers == [] && holes == []
      modifies this`holes, ids
      ensures Occupancy()
      ensures |holes| == NumHoles
      ensures forall k :: 0 <= k < NumHoles ==>
        holes[k].x == HoleX(width, k) && holes[k].y == cfg.wallY && holes[k].IsAvailable()
      ensures forall k :: 0 <= k < NumHoles ==> fresh(holes[k])
    {
      var i := 0;
      while i < NumHoles
        invariant 0 <= i <= NumHoles && |holes| == i
        invariant Distinct(holes)
        invariant forall k :: 0 <= k < i ==>
          holes[k].x == HoleX(width, k) && holes[k].y == cfg.wallY && holes[k].IsAvailable()
        invariant forall k :: 0 <= k < i ==> fresh(holes[k])
      {
        var id := ids.Next();
        var hole := new Hole(id, HoleX(width, i), cfg.wallY);
        holes := holes + [hole];
        i := i + 1;
      }
    }

    /** The pedestrian loop of `createUI`. */
    method SpawnCustomers(people: seq<PersonDraw>)
      requires Occupancy() && customers == []
      requires forall k :: 0 <= k < |people| ==> people[k].Valid(GetRoadSize(), cfg)
      modifies this`customers, ids
      ensures Occupancy()
      ensures |customers| == |people|
      ensures forall k :: 0 <= k < |customers| ==>
        customers[k].x == CustomerX(width, cfg.personNumber, k) && customers[k].mode == Walking
      ensures forall k :: 0 <= k < |customers| ==>
        roadTop + cfg.personRadius - 1.0 < customers[k].y < roadBottom - cfg.personRadius + 1.0
    {
      var i := 0;
      while i < |people|
        invariant 0 <= i <= |people| && |customers| == i
        invariant Occupancy()
        invariant forall k :: 0 <= k < i ==>
          customers[k].x == CustomerX(width, cfg.personNumber, k) && customers[k].mode == Walking
        invariant forall k :: 0 <= k < i ==>
          roadTop + cfg.personRadius - 1.0 < customers[k].y < roadBottom - cfg.personRadius + 1.0
      {
        SpawnCustomer(people[i]);
        i := i + 1;
      }
    }

    /** The particle loop of `createUI`. */
    method SpawnInformations(draws: seq<(real, real)>)
      requires Attachment() && informations == []
      modifies this`informations, ids
      ensures Attachment()
      ensures |informations| == |draws|
      ensures forall k :: 0 <= k < |informations| ==> !informations[k].isAttached
    {
      var i := 0;
      while i < |draws|
        invariant 0 <= i <= |draws| && |informations| == i
        invariant Attachment()
        invariant forall k :: 0 <= k < i ==> !informations[k].isAttached
      {
        SpawnInformation(draws[i].0, draws[i].1);
        i := i + 1;
      }
    }

    /** `spawnCustomer`: one new walking pedestrian at the next spawn `x`
        (the `y` computed here is overwritten by the person's own draw,
        which puts it on the road band narrowed by `PERSON_RADIUS`, give or
        take the rounding of `PMath.Between`). */
    method SpawnCustomer(draw: PersonDraw)
      requires Occupancy() && draw.Valid(GetRoadSize(), cfg)
      modifies this`customers, ids
      ensures Occupancy()
      ensures |customers| == |old(customers)| + 1 && customers[..|old(customers)|] == old(customers)
      ensures var p := customers[|old(customers)|];
        && fresh(p) && p.id == old(ids.last) + 1
        && p.x == CustomerX(width, cfg.personNumber, |old(customers)|) && p.y == draw.y
        && p.mode == Walking && p.targetHole == null
        && roadTop + cfg.personRadius - 1.0 < p.y < roadBottom - cfg.personRadius + 1.0
    {
      var roadY := height - cfg.roadHeight / 2.0;
      var x := CustomerX(width, cfg.personNumber, |customers|);
      var y := roadY - cfg.personRadius + draw.roadDraw as real / 2.0;
      var id := ids.Next();
      var person := new Person(id, x, y, draw.velocity, draw.right, draw.y);
      customers := customers + [person];
    }

    /** `spawnInformation`: one new free particle inside the player's
        movement bounds, at the drawn position clamped into its inset. */
    method SpawnInformation(xDraw: real, yDraw: real)
      requires Attachment()
      modifies this`informations, ids
      ensures Attachment()
      ensures |informations| == |old(informations)| + 1 && informations[..|old(informations)|] == old(informations)
      ensures var i := informations[|old(informations)|];
        && fresh(i) && i.id == old(ids.last) + 1 && !i.isAttached && i.player == null
        && i.bounds == Inset(player.bounds)
        && i.x == Clamp(xDraw, i.bounds.minX, i.bounds.maxX) && i.y == Clamp(yDraw, i.bounds.minY, i.bounds.maxY)
    {
      var id := ids.Next();
      var info := new Information(id, xDraw, yDraw, player.bounds);
      informations := informations + [info];
    }

    /** `updateDebug`: pushes the current mode to every object. */
    method UpdateDebug()
      modifies this`shownDebug
      ensures shownDebug == debugMode
    {
      shownDebug := debugMode;
    }

    /** The `debugMode` setter as the source writes it: it emits before it
        stores, so when the listener fires `updateDebug` pushes the mode
        being left, and every change leaves the objects showing the
        opposite of the mode. */
    method SetDebugModeAsWritten(value: bool)
      requires DebugSynced()
      modifies this`debugMode, this`shownDebug, signals
      ensures debugMode == value
      ensures value != old(debugMode) ==> shownDebug == old(debugMode) && shownDebug != debugMode
      ensures value == old(debugMode) ==> shownDebug == debugMode
    {
      var fired := signals.EmitSignal(DebugSignal, [Bool(value)]);
      if UpdateDebugCallback in fired {
        UpdateDebug();
      }
      debugMode := value;
    }

    /** The `debugMode` setter, corrected to store before it emits: the
        objects always show the current mode. */
    method SetDebugMode(value: bool)
      requires DebugSynced()
      modifies this`debugMode, this`shownDebug, signals
      ensures DebugSynced() && debugMode == value && shownDebug == value
    {
      debugMode := value;
      var fired := signals.EmitSignal(DebugSignal, [Bool(value)]);
      if UpdateDebugCallback in fired {
        UpdateDebug();
      }
    }

    /** What `update`'s turn for pedestrian `k` did, from its state `s0`
        and the holders `held` it found to the holes as they are now (see
        `OfferedAt`). */
    ghost predicate Offered(k: nat, draw: real, s0: Snapshot, held: seq<Person?>)
      requires k < |customers| && |held| == |holes|
      reads this, customers[k], set h | h in holes
    {
      OfferedAt(customers[k], customers[k].Snap(), draw, s0, holes, held, Holders(holes), cfg)
    }

    /** `update`: each pedestrian in turn, when its draw passes the gate,
        tries to order at the first free hole in reach. `hs[k]` are the
        holders pedestrian `k` finds on its turn and `hs[k + 1]` those it
        leaves: they run from the holders before `update` to those after,
        and each turn is `OfferedAt` against its own. */
    method Update(draws: seq<real>) returns (ghost hs: seq<seq<Person?>>)
      requires Occupancy() && |draws| == |customers|
      modifies set p | p in customers, set h | h in holes
      ensures Occupancy()
      ensures |hs| == |customers| + 1 && hs[0] == old(Holders(holes)) && hs[|customers|] == Holders(holes)
      ensures forall k :: 0 <= k < |customers| ==>
        |hs[k]| == |holes| &&
        OfferedAt(customers[k], customers[k].Snap(), draws[k], old(customers[k].Snap()), holes, hs[k], hs[k + 1], cfg)
      ensures forall h :: h in holes && !unchanged(h) ==>
        old(h.currentCustomer) == null && h.currentCustomer != null && h.currentCustomer.targetHole == h
    {
      ghost var snaps := Snaps(customers);
      hs := [Holders(holes)];
      var i := 0;
      while i < |customers|
        invariant 0 <= i <= |customers|
        invariant Occupancy()
        invariant forall k :: i <= k < |customers| ==> unchanged(customers[k])
        invariant |hs| == i + 1 && hs[0] == old(Holders(holes)) && hs[i] == Holders(holes)
        invariant forall k :: 0 <= k < i ==>
          |hs[k]| == |holes| &&
          OfferedAt(customers[k], customers[k].Snap(), draws[k], snaps[k], holes, hs[k], hs[k + 1], cfg)
        invariant forall h :: h in holes && !unchanged(h) ==>
          old(h.currentCustomer) == null && h.currentCustomer != null && h.currentCustomer.targetHole == h
      {
        hs := OfferNext(i, draws, snaps, hs);
        i := i + 1;
      }
    }

    /** One turn of `update`: pedestrian `i` is offered a hole against the
        holders it finds, and the turns before it stay as they were. */
    method OfferNext(i: nat, draws: seq<real>, ghost snaps: seq<Snapshot>, ghost hs: seq<seq<Person?>>)
      returns (ghost hs': seq<seq<Person?>>)
      requires Occupancy() && i < |customers| == |draws| == |snaps|
      requires snaps[i] == customers[i].Snap() && |hs| == i + 1 && hs[i] == Holders(holes)
      requires forall k :: 0 <= k < i ==>
        |hs[k]| == |holes| &&
        OfferedAt(customers[k], customers[k].Snap(), draws[k], snaps[k], holes, hs[k], hs[k + 1], cfg)
      modifies customers[i], set h | h in holes
      ensures Occupancy()
      ensures hs' == hs + [Holders(holes)]
      ensures forall k :: 0 <= k <= i ==>
        |hs'[k]| == |holes| &&
        OfferedAt(customers[k], customers[k].Snap(), draws[k], snaps[k], holes, hs'[k], hs'[k + 1], cfg)
      ensures forall h :: h in holes && !unchanged(h) ==>
        old(h.currentCustomer) == null && h.currentCustomer == customers[i]
    {
      OfferHole(i, draws[i]);
      hs' := hs + [Holders(holes)];
    }

    /** The body of `update`'s `forEach` for pedestrian `k`: past the gate,
        it tries to order at the first free hole in reach, and only that
        hole can change. */
    method OfferHole(k: nat, draw: real)
      requires Occupancy() && k < |customers|
      modifies customers[k], set h | h in holes
      ensures Occupancy()
      ensures Offered(k, draw, old(customers[k].Snap()), old(Holders(holes)))
      ensures forall h :: h in holes && !unchanged(h) ==>
        old(h.currentCustomer) == null && h.currentCustomer == customers[k]
    {
      var person := customers[k];
      ghost var s0 := person.Snap();
      ghost var held := Holders(holes);
      if draw < OrderChance {
        var found := FindNearbyHole(holes, person.x, cfg.holeWidth);
        if found.None? {
          OfferFindsNone(person, draw, s0, holes, held, cfg);
        } else {
          OrderAt(k, draw, found.value);
        }
      }
    }

    /** `person.tryToOrder(hole)` with the hole `holes.find(...)` returned:
        only the person and that hole can change. */
    method OrderAt(k: nat, draw: real, j: nat)
      requires Occupancy() && k < |customers| && draw < OrderChance
      requires FirstNearby(holes, Holders(holes), customers[k].x, cfg.holeWidth, j)
      modifies customers[k], holes[j]
      ensures Occupancy()
      ensures Offered(k, draw, old(customers[k].Snap()), old(Holders(holes)))
      ensures !unchanged(holes[j]) ==> old(holes[j].currentCustomer) == null && holes[j].currentCustomer == customers[k]
    {
      var person := customers[k];
      ghost var s0 := person.Snap();
      ghost var held := Holders(holes);
      person.TryToOrder(holes[j], cfg);
      if s0.body.mode != Walking {
        assert Holders(holes) == held;
      } else if holes[j] == s0.lastVisitedHole {
        OfferDeclined(person, draw, s0, holes, held, cfg, j);
      } else {
        OfferTaken(person, draw, s0, holes, held, cfg, j);
        assert Holders(holes) == held[j := person];
      }
    }

    /** One engine tick of pedestrian `k`: its `update`, seeing the others
        through `getOtherPeople` and the road through `getRoadSize`.
        Reservations stay consistent whatever the step does. */
    method TickPerson(k: nat, delta: real, drawY: real, sqrt: real -> real)
      requires Occupancy() && k < |customers|
      requires BetweenOutcome(drawY, roadTop + cfg.personRadius, roadBottom - cfg.personRadius)
      modifies customers[k], customers[k].targetHole
      ensures Occupancy()
    {
      var me := customers[k];
      var others := Neighbours(GetOtherPeople(me));
      me.Update(delta, cfg, others, GetRoadSize(), width, height, drawY, sqrt);
    }

    /** One engine tick of particle `k`, seeing every particle (itself
        included, which exerts no force). Attachment is untouched. */
    method TickInformation(k: nat, delta: real, sqrt: real -> real)
      requires Attachment() && k < |informations| && IsSquareRoot(sqrt)
      modifies informations[k]
      ensures Attachment()
    {
      informations[k].Update(delta, Peers(informations), sqrt);
    }

    /** One engine tick of the player: it moves and collects; attachment
        stays consistent. */
    method TickPlayer(delta: real, pulse: real, keys: Keys, sqrt: real -> real)
      requires Attachment() && 0.0 <= pulse <= 1.0
      modifies player, set i | i in informations
      ensures Attachment()
    {
      ghost var views := Views(informations);
      ghost var before := player.attachedInfo;
      player.Update(delta, pulse, keys, informations, sqrt);
      ghost var radius := CollectionRadius(pulse);
      ghost var picked := Picked(informations, views, player.x, player.y, radius, sqrt);
      PickedDistinct(informations, views, player.x, player.y, radius, sqrt);
      forall t | t in picked
        ensures t in informations && t.isAttached && t !in before
      {
        PickedAreFreeAndNear(informations, views, player.x, player.y, radius, sqrt, t);
      }
      forall k | 0 <= k < |informations| && informations[k].isAttached
        ensures informations[k] in player.attachedInfo
      {
        if Reaches(player.x, player.y, views[k], radius, sqrt) {
          NearFreeArePicked(informations, views, player.x, player.y, radius, sqrt, k);
        }
      }
      assert forall i, j :: 0 <= i < |before| <= j < |player.attachedInfo| ==>
        player.attachedInfo[j] in picked && player.attachedInfo[i] != player.attachedInfo[j];
    }
  }

  /** The random draws that make up one new pedestrian: the road offset
      `spawnCustomer` draws, and the velocity, direction and `y` its
      constructor draws. */
  datatype PersonDraw = PersonDraw(roadDraw: int, velocity: int, right: bool, y: real)
  {
    /** What the draws can be on road `road`: `PMath.Between(0, ROAD_HEIGHT
        - PERSON_RADIUS)`, `PMath.Between(50, 150)` and `PMath.Between(roadTop
        + PERSON_RADIUS, roadBottom - PERSON_RADIUS)`. */
    predicate Valid(road: Road, cfg: Config) {
      && BetweenOutcome(roadDraw as real, 0.0, cfg.roadHeight - cfg.personRadius)
      && 50 <= velocity <= 150
      && BetweenOutcome(y, road.top + cfg.personRadius, road.bottom - cfg.personRadius)
    }
  }
}
