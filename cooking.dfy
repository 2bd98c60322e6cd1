/** The prototype cooking game: the player picks up the item of a supply
    station, carries it to the COMBINE station, and every third item placed
    there completes a recipe worth 100 points; a short list of orders is
    kept, and a touch interacts with every station under the finger. */
module Cooking {
  import opened Geometry

  datatype StationType = CustomerInfo | ProductSpecs | PricingData | TechSupport | Combine

  /** How many items complete a recipe. */
  const RecipeSize: nat := 3
  const RecipePoints: int := 100
  const MaxOrders: nat := 3
  /** A touch reaches a station closer than this. */
  const TouchRadius: real := 32.0

  /** A station: where it stands, what it is, and, for the COMBINE station
      only, the items placed on it so far. */
  datatype Station = Station(x: real, y: real, kind: StationType, items: Option<seq<StationType>>)

  /** A new station: a COMBINE station starts with no items, any other has
      no item list at all. */
  function NewStation(x: real, y: real, kind: StationType): (s: Station)
    ensures s.x == x && s.y == y && s.kind == kind
    ensures s.items.Some? <==> kind == Combine
    ensures s.items.Some? ==> s.items.value == []
  {
    Station(x, y, kind, if kind == Combine then Some([]) else None)
  }

  /** The five stations of `setupStations`. */
  function DefaultStations(): seq<Station> {
    [NewStation(100.0, 100.0, CustomerInfo), NewStation(100.0, 400.0, ProductSpecs),
     NewStation(500.0, 100.0, PricingData), NewStation(500.0, 400.0, TechSupport),
     NewStation(300.0, 250.0, Combine)]
  }

  /** Every station is well formed: only the COMBINE station has items, and
      it never holds a whole recipe between interactions. */
  predicate StationOk(s: Station) {
    (s.items.Some? <==> s.kind == Combine) && (s.items.Some? ==> |s.items.value| < RecipeSize)
  }

  predicate StationsOk(stations: seq<Station>) {
    forall k :: 0 <= k < |stations| ==> StationOk(stations[k])
  }

  /** `r` is `s` after interactions: the same stations in the same places,
      still well formed. */
  predicate Layout(s: seq<Station>, r: seq<Station>) {
    && |r| == |s| && StationsOk(r)
    && forall j :: 0 <= j < |s| ==> r[j].x == s[j].x && r[j].y == s[j].y && r[j].kind == s[j].kind
  }

  /** What an interaction works on: the item in hand, the stations and the
      score. */
  datatype KitchenState = KitchenState(holding: Option<StationType>, stations: seq<Station>, score: int)

  // ---------------------------------------------------------------- recipes

  /** The recipe check: with a whole recipe on the station the score grows by
      `RecipePoints` and the station is emptied; otherwise nothing. */
  function RecipeChecked(s: Station, score: int): (r: (Station, int))
    requires s.items.Some?
    ensures |s.items.value| >= RecipeSize ==> r == (s.(items := Some([])), score + RecipePoints)
    ensures |s.items.value| < RecipeSize ==> r == (s, score)
  {
    if |s.items.value| >= RecipeSize then (s.(items := Some([])), score + RecipePoints) else (s, score)
  }

  /** Places `ds` one by one on a COMBINE station, checking the recipe after
      each. */
  function DeliverAll(s: Station, score: int, ds: seq<StationType>): (r: (Station, int))
    requires s.items.Some?
    ensures r.0.items.Some? && r.0 == s.(items := r.0.items)
  {
    if ds == [] then (s, score)
    else
      var (p, sc) := DeliverAll(s, score, ds[..|ds| - 1]);
      RecipeChecked(p.(items := Some(p.items.value + [ds[|ds| - 1]])), sc)
  }

  /** Every third item placed completes a recipe: from an empty station and
      no points, after `n` items the score is `RecipePoints * (n / 3)` and
      the station holds the last `n % 3` of them. */
  lemma {:induction false} RecipeEveryThird(s: Station, ds: seq<StationType>)
    requires s.items == Some([])
    ensures DeliverAll(s, 0, ds).0.items.Some?
    ensures DeliverAll(s, 0, ds).1 == RecipePoints * (|ds| / RecipeSize)
    ensures DeliverAll(s, 0, ds).0.items.value == ds[|ds| - |ds| % RecipeSize..]
  {
    if ds != [] {
      var n := |ds| - 1;
      RecipeEveryThird(s, ds[..n]);
      var (p, sc) := DeliverAll(s, 0, ds[..n]);
      var kept := n - n % RecipeSize;
      assert ds[..n][kept..] == ds[kept..n];
      assert ds[kept..n] + [ds[n]] == ds[kept..];
      DivModNext(n);
      var placed := p.(items := Some(p.items.value + [ds[n]]));
      assert placed.items.value == ds[kept..];
      assert DeliverAll(s, 0, ds) == RecipeChecked(placed, sc);
    }
  }

  /** Counting one more item: the remainder wraps to zero exactly when a
      quotient step is taken. */
  lemma DivModNext(n: nat)
    ensures n % RecipeSize == 2 ==> (n + 1) / RecipeSize == n / RecipeSize + 1 && (n + 1) % RecipeSize == 0
    ensures n % RecipeSize < 2 ==> (n + 1) / RecipeSize == n / RecipeSize && (n + 1) % RecipeSize == n % RecipeSize + 1
  {
    var q, m := n / RecipeSize, n % RecipeSize;
    assert n == RecipeSize * q + m;
    if m == 2 {
      assert n + 1 == RecipeSize * (q + 1) + 0;
    } else {
      assert n + 1 == RecipeSize * q + (m + 1);
    }
  }

  // ---------------------------------------------------------------- the score

  /** A JavaScript number as far as the score goes: the score is never
      assigned before its first `+=`, so it starts `undefined`. */
  datatype JsNumber = Undefined | NaN | Num(v: int)

  /** `+=` on a JavaScript number: `undefined + k` and `NaN + k` are NaN. */
  function AddAsWritten(s: JsNumber, k: int): JsNumber {
    match s
    case Num(v) => Num(v + k)
    case _ => NaN
  }

  /** The score after `n` completed recipes, as the source keeps it. */
  function ScoreAsWritten(n: nat): JsNumber {
    if n == 0 then Undefined else AddAsWritten(ScoreAsWritten(n - 1), RecipePoints)
  }

  /** Once a recipe is completed the displayed score is NaN, and it stays
      NaN whatever is completed after. */
  lemma {:induction false} ScoreAsWrittenIsNaN(n: nat)
    requires n >= 1
    ensures ScoreAsWritten(n) == NaN
  {
    if n > 1 {
      ScoreAsWrittenIsNaN(n - 1);
    }
  }

  // ---------------------------------------------------------------- interaction

  /** `interactWithStation` on the value state. At the COMBINE station a held
      item is placed and the recipe checked; empty-handed nothing happens.
      At any other station an empty hand picks up that station's item; a
      full hand nothing happens. The stations stay where they are. */
  function Interact(s: KitchenState, k: nat): (r: KitchenState)
    requires k < |s.stations| && StationsOk(s.stations)
    ensures Layout(s.stations, r.stations)
    ensures forall j :: 0 <= j < |s.stations| && j != k ==> r.stations[j] == s.stations[j]
    ensures s.stations[k].kind == Combine && s.holding.Some? ==>
      r.holding.None?
      && (r.score == s.score + RecipePoints <==> |s.stations[k].items.value| + 1 == RecipeSize)
      && (r.score == s.score <==> |s.stations[k].items.value| + 1 < RecipeSize)
      && r.stations[k].items == Some(if |s.stations[k].items.value| + 1 == RecipeSize then []
                                     else s.stations[k].items.value + [s.holding.value])
    ensures s.stations[k].kind != Combine && s.holding.None? ==>
      r == s.(holding := Some(s.stations[k].kind))
    ensures (s.stations[k].kind == Combine) == s.holding.None? ==> r == s
  {
    var st := s.stations[k];
    if st.kind == Combine then
      if s.holding.Some? then
        var placed := st.(items := Some(st.items.value + [s.holding.value]));
        var (checked, score) := RecipeChecked(placed, s.score);
        s.(holding := None, stations := s.stations[k := checked], score := score)
      else s
    else if s.holding.None? then s.(holding := Some(st.kind))
    else s
  }

  /** Placing a held item at the COMBINE station is delivering that one
      item: the station and the score are those `DeliverAll` gives for it. */
  lemma InteractIsDelivery(s: KitchenState, k: nat)
    requires k < |s.stations| && StationsOk(s.stations)
    requires s.stations[k].kind == Combine && s.holding.Some?
    ensures var d := DeliverAll(s.stations[k], s.score, [s.holding.value]);
      Interact(s, k) == s.(holding := None, stations := s.stations[k := d.0], score := d.1)
  {
    assert [s.holding.value][..0] == [];
  }

  /** One station of a touch: interacted with when its centre lies within
      `TouchRadius` of the touch, left alone otherwise. */
  function TouchOne(s: KitchenState, k: nat, tx: real, ty: real, sqrt: real -> real): (r: KitchenState)
    requires k < |s.stations| && StationsOk(s.stations)
    ensures Layout(s.stations, r.stations)
    ensures Dist(tx - s.stations[k].x, ty - s.stations[k].y, sqrt) < TouchRadius ==> r == Interact(s, k)
    ensures Dist(tx - s.stations[k].x, ty - s.stations[k].y, sqrt) >= TouchRadius ==> r == s
  {
    if Dist(tx - s.stations[k].x, ty - s.stations[k].y, sqrt) < TouchRadius then Interact(s, k) else s
  }

  /** Interactions with the stations, in order, whose centre lies within
      `TouchRadius` of the touch, over the first `i` stations. */
  function TouchUpTo(s: KitchenState, tx: real, ty: real, sqrt: real -> real, i: nat): (r: KitchenState)
    requires i <= |s.stations| && StationsOk(s.stations)
    ensures |r.stations| == |s.stations| && StationsOk(r.stations)
  {
    if i == 0 then s
    else
      var p := TouchUpTo(s, tx, ty, sqrt, i - 1);
      var st := p.stations[i - 1];
      if Dist(tx - st.x, ty - st.y, sqrt) < TouchRadius then Interact(p, i - 1) else p
  }

  /** The fold over one more station is one more `TouchOne`. */
  lemma TouchUpToStep(s: KitchenState, tx: real, ty: real, sqrt: real -> real, i: nat)
    requires i < |s.stations| && StationsOk(s.stations)
    ensures TouchUpTo(s, tx, ty, sqrt, i + 1) == TouchOne(TouchUpTo(s, tx, ty, sqrt, i), i, tx, ty, sqrt)
  {
  }

  /** A touch moves no station and changes no station's kind. */
  lemma {:induction false} TouchKeepsLayout(s: KitchenState, tx: real, ty: real, sqrt: real -> real, i: nat)
    requires i <= |s.stations| && StationsOk(s.stations)
    ensures Layout(s.stations, TouchUpTo(s, tx, ty, sqrt, i).stations)
    decreases i
  {
    if i > 0 {
      TouchKeepsLayout(s, tx, ty, sqrt, i - 1);
      TouchUpToStep(s, tx, ty, sqrt, i - 1);
    }
  }

  /** A touch far from every station changes nothing. */
  lemma {:induction false} TouchAwayIsNoop(s: KitchenState, tx: real, ty: real, sqrt: real -> real, i: nat)
    requires i <= |s.stations| && StationsOk(s.stations)
    requires forall j :: 0 <= j < i ==> Dist(tx - s.stations[j].x, ty - s.stations[j].y, sqrt) >= TouchRadius
    ensures TouchUpTo(s, tx, ty, sqrt, i) == s
    decreases i
  {
    if i > 0 {
      TouchAwayIsNoop(s, tx, ty, sqrt, i - 1);
    }
  }

  // ---------------------------------------------------------------- orders

  datatype Order = Order(name: string, items: seq<StationType>)

  /** What every order asks for. */
  function OrderItems(): seq<StationType> {
    [CustomerInfo, ProductSpecs, PricingData]
  }

  function DigitChar(d: nat): char
    requires d < 10
  {
    "0123456789"[d]
  }

  /** The decimal digits of `n`, as `String(n)` writes them. */
  function Digits(n: nat): string {
    if n < 10 then [DigitChar(n)] else Digits(n / 10) + [DigitChar(n % 10)]
  }

  /** `'Order ' + (n + 1)`. */
  function OrderName(n: nat): string {
    "Order " + Digits(n + 1)
  }

  /** The order list after `updateOrders` ran `n` times from empty. */
  function OrdersAfter(n: nat): seq<Order> {
    if n == 0 then []
    else
      var prev := OrdersAfter(n - 1);
      if |prev| < MaxOrders then prev + [Order(OrderName(|prev|), OrderItems())] else prev
  }

  /** The list fills up to `MaxOrders` and no further, and order `i` is
      named after its position. */
  lemma {:induction false} OrdersFillUp(n: nat)
    ensures |OrdersAfter(n)| == if n < MaxOrders then n else MaxOrders
    ensures forall i :: 0 <= i < |OrdersAfter(n)| ==> OrdersAfter(n)[i] == Order(OrderName(i), OrderItems())
  {
    if n > 0 {
      OrdersFillUp(n - 1);
    }
  }

  // ---------------------------------------------------------------- the scene

  class Kitchen {
    const width: real
    const height: real
    var playerX: real
    var playerY: real
    var holding: Option<StationType>
    var stations: seq<Station>
    /** Corrected to start at 0; see `ScoreAsWritten`. */
    var score: int
    var orders: seq<Order>

    function State(): KitchenState
      reads this
    {
      KitchenState(holding, stations, score)
    }

    ghost predicate Valid()
      reads this
    {
      StationsOk(stations) && |orders| <= MaxOrders
    }

    /** `create`: the player at (200, 200) holding nothing, the five
        stations, no points, and the first order. */
    constructor (width: real, height: real)
      ensures Valid()
      ensures this.width == width && this.height == height
      ensures playerX == 200.0 && playerY == 200.0 && holding == None
      ensures stations == DefaultStations() && score == 0
      ensures orders == OrdersAfter(1)
    {
      this.width := width;
      this.height := height;
      playerX, playerY := 200.0, 200.0;
      holding := None;
      stations := DefaultStations();
      score := 0;
      orders := [];
      new;
      UpdateOrders();
    }

    /** `interactWithStation`. */
    method InteractWithStation(k: nat)
      requires Valid() && k < |stations|
      modifies this
      ensures Valid()
      ensures State() == Interact(old(State()), k)
      ensures orders == old(orders) && playerX == old(playerX) && playerY == old(playerY)
    {
      var station := stations[k];
      if station.kind == Combine {
        if holding.Some? {
          stations := stations[k := station.(items := Some(station.items.value + [holding.value]))];
          holding := None;
          CheckRecipe(k);
        }
      } else {
        if holding.None? {
          holding := Some(station.kind);
        }
      }
    }

    /** `checkRecipe` on station `k`. */
    method CheckRecipe(k: nat)
      requires k < |stations| && stations[k].items.Some?
      modifies this`stations, this`score
      ensures var (s, sc) := RecipeChecked(old(stations[k]), old(score));
        stations == old(stations)[k := s] && score == sc
    {
      var items := stations[k].items.value;
      if |items| >= RecipeSize {
        score := score + RecipePoints;
        stations := stations[k := stations[k].(items := Some([]))];
      }
    }

    /** `updateOrders`: one more order while fewer than `MaxOrders`. */
    method UpdateOrders()
      modifies this`orders
      ensures forall n: nat :: old(orders) == OrdersAfter(n) ==> orders == OrdersAfter(n + 1)
      ensures |old(orders)| < MaxOrders ==> orders == old(orders) + [Order(OrderName(|old(orders)|), OrderItems())]
      ensures |old(orders)| >= MaxOrders ==> orders == old(orders)
    {
      if |orders| < MaxOrders {
        orders := orders + [Order(OrderName(|orders|), OrderItems())];
      }
    }

    /** `constrainPlayer`: the player is clamped into the scene. */
    method ConstrainPlayer()
      modifies this`playerX, this`playerY
      ensures playerX == Clamp(old(playerX), 0.0, width) && playerY == Clamp(old(playerY), 0.0, height)
      ensures width >= 0.0 && height >= 0.0 ==> 0.0 <= playerX <= width && 0.0 <= playerY <= height
      ensures 0.0 <= old(playerX) <= width && 0.0 <= old(playerY) <= height ==>
        playerX == old(playerX) && playerY == old(playerY)
    {
      playerX := Clamp(playerX, 0.0, width);
      playerY := Clamp(playerY, 0.0, height);
    }

    /** The `pointerdown` listener: every station within `TouchRadius` of
        the touch, in order, is interacted with. */
    method Touch(tx: real, ty: real, sqrt: real -> real)
      requires Valid()
      modifies this
      ensures Valid()
      ensures State() == TouchUpTo(old(State()), tx, ty, sqrt, |old(stations)|)
      ensures orders == old(orders) && playerX == old(playerX) && playerY == old(playerY)
    {
      ghost var s0 := State();
      var n := |stations|;
      for i := 0 to n
        invariant orders == old(orders) && playerX == old(playerX) && playerY == old(playerY)
        invariant State() == TouchUpTo(s0, tx, ty, sqrt, i)
      {
        TouchStation(i, tx, ty, sqrt);
        TouchUpToStep(s0, tx, ty, sqrt, i);
      }
    }

    /** One station of the touch `forEach`: interacted with when the touch
        is within `TouchRadius` of it. */
    method TouchStation(k: nat, tx: real, ty: real, sqrt: real -> real)
      requires Valid() && k < |stations|
      modifies this
      ensures Valid() && orders == old(orders) && playerX == old(playerX) && playerY == old(playerY)
      ensures State() == TouchOne(old(State()), k, tx, ty, sqrt)
    {
      var st := stations[k];
      if Dist(tx - st.x, ty - st.y, sqrt) < TouchRadius {
        InteractWithStation(k);
      }
    }
  }
}
