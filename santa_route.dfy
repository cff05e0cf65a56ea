/**
 * The route of Santa and Robo-Santa (2015 day 3): two positions that start
 * at the origin, and a count of visits per house, keyed by the house's
 * position rendered as text.
 */
module SantaRoutes {
  import opened Ints
  import opened Vectors

  /** Who delivers a present: the visit is counted at that deliverer's position. */
  datatype DeliveryBy = Santa | RoboSanta

  /** One more visit to the house under `key` (`entry(key).or_insert(0)`, then `+= 1`). */
  function Bump(visits: map<string, int>, key: string): map<string, int> {
    if key in visits then visits[key := visits[key] + 1] else visits[key := 1]
  }

  /** A house not seen before starts at one, a known one counts one more, and no other count changes. */
  lemma BumpCounts(visits: map<string, int>, key: string)
    ensures Bump(visits, key).Keys == visits.Keys + {key}
    ensures key in visits ==> Bump(visits, key)[key] == visits[key] + 1
    ensures key !in visits ==> Bump(visits, key)[key] == 1
    ensures forall k :: k in visits && k != key ==> Bump(visits, key)[k] == visits[k]
  {
  }

  class SantaRoute {
    var santaPosition: Vector2
    var roboPosition: Vector2
    var visitedHouses: map<string, int>

    /** The two deliverers have positions of their own. */
    predicate Valid()
      reads this
    {
      santaPosition != roboPosition
    }

    /** `SantaRoute::new`: both deliverers at the origin, no house visited yet. */
    constructor()
      ensures Valid() && fresh(santaPosition) && fresh(roboPosition)
      ensures santaPosition.x == 0 && santaPosition.y == 0
      ensures roboPosition.x == 0 && roboPosition.y == 0
      ensures visitedHouses == map[]
    {
      santaPosition := new Vector2(0, 0);
      roboPosition := new Vector2(0, 0);
      visitedHouses := map[];
    }

    /** The position of the chosen deliverer. */
    function PositionOf(deliverer: DeliveryBy): Vector2
      reads this
    {
      if deliverer == Santa then santaPosition else roboPosition
    }

    /**
     * `visit_house`: one more visit to the house where the chosen deliverer
     * stands. Neither position moves, and no other house's count changes.
     */
    method VisitHouse(deliverer: DeliveryBy)
      requires InI32(PositionOf(deliverer).x) && InI32(PositionOf(deliverer).y)
      modifies this`visitedHouses
      ensures visitedHouses == Bump(old(visitedHouses), CoordsKey(PositionOf(deliverer).x, PositionOf(deliverer).y))
      ensures unchanged(santaPosition, roboPosition)
    {
      var position := if deliverer == Santa then santaPosition else roboPosition;
      var key := position.CoordsStr();
      visitedHouses := Bump(visitedHouses, key);
    }
  }

  /** A new route has Santa at the origin. */
  method RouteCreation() returns (route: SantaRoute)
    ensures route.santaPosition.x == 0 && route.santaPosition.y == 0 && |route.visitedHouses| == 0
  {
    route := new SantaRoute();
  }

  /**
   * Santa visits the origin, one house to the right, and the origin again:
   * two houses, the origin visited twice and the other once.
   */
  method VisitThree() returns (route: SantaRoute)
    ensures |route.visitedHouses| == 2
    ensures CoordsKey(0, 0) in route.visitedHouses && route.visitedHouses[CoordsKey(0, 0)] == 2
    ensures CoordsKey(1, 0) in route.visitedHouses && route.visitedHouses[CoordsKey(1, 0)] == 1
  {
    var origin, east := CoordsKey(0, 0), CoordsKey(1, 0);
    route := new SantaRoute();
    route.VisitHouse(Santa);
    ghost var first := route.visitedHouses;
    assert first == Bump(map[], origin);
    var right := Vector2.Right();
    route.santaPosition.Add(right);
    route.VisitHouse(Santa);
    ghost var second := route.visitedHouses;
    assert second == Bump(first, east);
    var left := Vector2.Left();
    route.santaPosition.Add(left);
    route.VisitHouse(Santa);
    assert route.visitedHouses == Bump(second, origin);
    TwoHouses(origin, east);
  }

  /** The counts of the visits origin, east, origin. */
  lemma TwoHouses(origin: string, east: string)
    requires origin == CoordsKey(0, 0) && east == CoordsKey(1, 0)
    ensures Bump(Bump(Bump(map[], origin), east), origin) == map[origin := 2, east := 1]
    ensures |map[origin := 2, east := 1]| == 2
  {
    if origin == east {
      CoordsKeyInjective(0, 0, 1, 0);
    }
  }

  /** Robo-Santa's visits are counted where Robo-Santa stands, however Santa moves: one house. */
  method RoboStaysHome() returns (route: SantaRoute)
    ensures |route.visitedHouses| == 1
    ensures CoordsKey(0, 0) in route.visitedHouses && route.visitedHouses[CoordsKey(0, 0)] == 3
  {
    var origin := CoordsKey(0, 0);
    route := new SantaRoute();
    route.VisitHouse(RoboSanta);
    ghost var first := route.visitedHouses;
    assert first == Bump(map[], origin);
    var right := Vector2.Right();
    route.santaPosition.Add(right);
    route.VisitHouse(RoboSanta);
    ghost var second := route.visitedHouses;
    assert second == Bump(first, origin);
    var left := Vector2.Left();
    route.santaPosition.Add(left);
    route.VisitHouse(RoboSanta);
    assert route.visitedHouses == Bump(second, origin);
    OneHouse(origin);
  }

  /** Three visits to the same house: one house, counted three times. */
  lemma OneHouse(origin: string)
    ensures Bump(Bump(Bump(map[], origin), origin), origin) == map[origin := 3]
    ensures |map[origin := 3]| == 1
  {
  }
}
