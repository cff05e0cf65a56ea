/**
 * Delivering presents (2015 day 3): each character of the input moves a
 * deliverer one house north, south, east or west, and a present is left at
 * every house reached. Part one has Santa alone; in part two Santa and
 * Robo-Santa take turns, Santa first. The answer is the number of distinct
 * houses that got a present.
 */
module SantaWalks {
  import opened Ints
  import opened Vectors
  import opened SantaRoutes

  /** The offset one character moves by; an unknown character does not move. */
  function Step(c: char): (int, int) {
    match c
    case '>' => (1, 0)
    case '<' => (-1, 0)
    case '^' => (0, -1)
    case 'v' => (0, 1)
    case _ => (0, 0)
  }

  function Abs(n: int): nat {
    if n < 0 then -n else n
  }

  /** Every move is one of the four unit offsets, and only an arrow moves at all. */
  lemma StepIsUnit(c: char)
    ensures Abs(Step(c).0) + Abs(Step(c).1) == (if c in "<>^v" then 1 else 0)
  {
  }

  /**
   * The direction of a character as a fresh vector (the `match` of the
   * source): right, left, up, down, and a zero vector for anything else.
   */
  method Direction(c: char) returns (v: Vector2)
    ensures fresh(v) && (v.x, v.y) == Step(c)
  {
    match c
    case '>' => v := Vector2.Right();
    case '<' => v := Vector2.Left();
    case '^' => v := Vector2.Up();
    case 'v' => v := Vector2.Down();
    case _ => v := new Vector2(0, 0);
  }

  /** The position one character leads to from `p`. */
  function Moved(p: (int, int), c: char): (int, int) {
    (p.0 + Step(c).0, p.1 + Step(c).1)
  }

  /** Where a deliverer starting at the origin ends up after `moves`. */
  function Position(moves: string): (int, int) {
    if |moves| == 0 then (0, 0) else Moved(Position(moves[..|moves| - 1]), moves[|moves| - 1])
  }

  /** A deliverer is never farther from the origin than the number of its moves. */
  lemma {:induction false} PositionBound(moves: string)
    ensures Abs(Position(moves).0) + Abs(Position(moves).1) <= |moves|
  {
    if |moves| > 0 {
      PositionBound(moves[..|moves| - 1]);
      StepIsUnit(moves[|moves| - 1]);
    }
  }

  /** So on an input shorter than `i32::MAX`, the positions fit an `i32`. */
  lemma PositionInRange(moves: string)
    requires |moves| <= I32Max
    ensures InI32(Position(moves).0) && InI32(Position(moves).1)
  {
    PositionBound(moves);
  }

  /** The counts a sequence of visits leaves behind, one `Bump` per visit. */
  function Tally(keys: seq<string>): map<string, int> {
    if |keys| == 0 then map[] else Bump(Tally(keys[..|keys| - 1]), keys[|keys| - 1])
  }

  /** A house is counted exactly when it was visited, as often as it was visited. */
  lemma {:induction false} TallyCounts(keys: seq<string>)
    ensures forall k :: k in Tally(keys) <==> k in keys
    ensures forall k :: k in Tally(keys) ==> Tally(keys)[k] == multiset(keys)[k]
  {
    if |keys| > 0 {
      var front := keys[..|keys| - 1];
      TallyCounts(front);
      assert keys == front + [keys[|keys| - 1]];
    }
  }

  /** The key of the house a deliverer reaches by `moves`. */
  function KeyAfter(moves: string): string
    requires |moves| <= I32Max
  {
    PositionInRange(moves);
    CoordsKey(Position(moves).0, Position(moves).1)
  }

  /** The houses of part one: the origin, then the house after each move. */
  function AloneKeys(moves: string): (keys: seq<string>)
    requires |moves| <= I32Max
    ensures |keys| == |moves| + 1
  {
    if |moves| == 0 then [KeyAfter(moves)] else AloneKeys(moves[..|moves| - 1]) + [KeyAfter(moves)]
  }

  /** The keys of part one are those of the positions after each prefix of the input. */
  lemma {:induction false} AloneKeysAt(moves: string, i: nat)
    requires |moves| <= I32Max && i <= |moves|
    ensures AloneKeys(moves)[i] == KeyAfter(moves[..i])
  {
    if i < |moves| {
      var front := moves[..|moves| - 1];
      assert front[..i] == moves[..i];
      AloneKeysAt(front, i);
    } else {
      assert moves[..i] == moves;
    }
  }

  /** One more character: Santa moves by its step, and the house reached is counted once more. */
  lemma AloneStep(input: string, i: nat)
    requires i < |input| <= I32Max
    ensures Position(input[..i + 1]) == (Position(input[..i]).0 + Step(input[i]).0, Position(input[..i]).1 + Step(input[i]).1)
    ensures Tally(AloneKeys(input[..i + 1])) == Bump(Tally(AloneKeys(input[..i])), KeyAfter(input[..i + 1]))
  {
    var moves := input[..i + 1];
    assert moves[..i] == input[..i] && moves[i] == input[i];
    var keys := AloneKeys(moves);
    assert keys[..|keys| - 1] == AloneKeys(input[..i]);
  }

  /** Before any character, Santa has visited the origin once. */
  lemma AloneStart(input: string)
    requires |input| <= I32Max
    ensures Position(input[..0]) == (0, 0)
    ensures Tally(AloneKeys(input[..0])) == Bump(map[], KeyAfter(input[..0]))
  {
    assert input[..0] == [];
    assert AloneKeys([])[..0] == [];
  }

  /**
   * Part one: Santa visits the origin, then moves by each character and
   * visits the house reached. The map counts every house by its visits,
   * and the answer is how many houses there are.
   */
  method DeliverAlone(input: string) returns (houses: nat, route: SantaRoute)
    requires |input| <= I32Max
    ensures route.visitedHouses == Tally(AloneKeys(input))
    ensures houses == |route.visitedHouses|
    ensures (route.santaPosition.x, route.santaPosition.y) == Position(input)
  {
    route := new SantaRoute();
    route.VisitHouse(Santa);
    AloneStart(input);
    for i := 0 to |input|
      invariant route.Valid() && fresh(route.santaPosition) && fresh(route.roboPosition)
      invariant (route.santaPosition.x, route.santaPosition.y) == Position(input[..i])
      invariant route.visitedHouses == Tally(AloneKeys(input[..i]))
    {
      var direction := Direction(input[i]);
      AloneStep(input, i);
      PositionInRange(input[..i + 1]);
      route.santaPosition.Add(direction);
      route.VisitHouse(Santa);
    }
    assert input[..|input|] == input;
    houses := |route.visitedHouses|;
  }

  /** The houses counted in part one are exactly those Santa stood at, after each prefix of the input. */
  lemma AloneHouses(input: string, k: string)
    requires |input| <= I32Max
    ensures k in Tally(AloneKeys(input)) <==>
      exists i :: 0 <= i <= |input| && k == KeyAfter(input[..i])
  {
    var keys := AloneKeys(input);
    TallyCounts(keys);
    if k in keys {
      var i :| 0 <= i < |keys| && keys[i] == k;
      AloneKeysAt(input, i);
    }
    forall i | 0 <= i <= |input|
      ensures keys[i] == KeyAfter(input[..i])
    {
      AloneKeysAt(input, i);
    }
  }

  /** Who moves on the `i`-th character (counting from 0): Santa on even turns, Robo-Santa on odd ones. */
  function Mover(i: nat): DeliveryBy {
    if i % 2 == 0 then Santa else RoboSanta
  }

  /** The turns alternate. */
  lemma MoverAlternates(i: nat)
    ensures Mover(i + 1) != Mover(i)
  {
  }

  /** The characters of `moves` that move the given deliverer. */
  function MovesOf(moves: string, deliverer: DeliveryBy): (own: string)
    ensures |own| <= |moves|
  {
    if |moves| == 0 then []
    else
      var i := |moves| - 1;
      MovesOf(moves[..i], deliverer) + (if Mover(i) == deliverer then [moves[i]] else [])
  }

  /** Santa gets the characters at even positions and Robo-Santa those at odd positions, in order. */
  lemma {:induction false} MovesOfTurns(moves: string)
    ensures |MovesOf(moves, Santa)| == (|moves| + 1) / 2 && |MovesOf(moves, RoboSanta)| == |moves| / 2
    ensures forall j :: 0 <= j < |MovesOf(moves, Santa)| ==> MovesOf(moves, Santa)[j] == moves[2 * j]
    ensures forall j :: 0 <= j < |MovesOf(moves, RoboSanta)| ==> MovesOf(moves, RoboSanta)[j] == moves[2 * j + 1]
  {
    if |moves| > 0 {
      var i := |moves| - 1;
      MovesOfTurns(moves[..i]);
      forall j | 0 <= j < |MovesOf(moves[..i], Santa)|
        ensures MovesOf(moves[..i], Santa)[j] == moves[2 * j]
      {
      }
      forall j | 0 <= j < |MovesOf(moves[..i], RoboSanta)|
        ensures MovesOf(moves[..i], RoboSanta)[j] == moves[2 * j + 1]
      {
      }
    }
  }

  /** Both positions, Santa's and Robo-Santa's, after `moves` taken in turns. */
  function InTurns(moves: string): ((int, int), (int, int)) {
    if |moves| == 0 then ((0, 0), (0, 0))
    else
      var i := |moves| - 1;
      var before := InTurns(moves[..i]);
      if Mover(i) == Santa then (Moved(before.0, moves[i]), before.1) else (before.0, Moved(before.1, moves[i]))
  }

  /** Appending one character to a deliverer's moves moves it by that character's step. */
  lemma PositionSnoc(moves: string, c: char)
    ensures Position(moves + [c]) == Moved(Position(moves), c)
  {
    assert (moves + [c])[..|moves|] == moves;
  }

  /**
   * Each deliverer ends where its own characters alone would lead: a
   * character moves only the deliverer whose turn it is.
   */
  lemma {:induction false} InTurnsOwnMoves(moves: string)
    ensures InTurns(moves).0 == Position(MovesOf(moves, Santa))
    ensures InTurns(moves).1 == Position(MovesOf(moves, RoboSanta))
  {
    if |moves| > 0 {
      var i := |moves| - 1;
      var front := moves[..i];
      InTurnsOwnMoves(front);
      var santa, robo := MovesOf(front, Santa), MovesOf(front, RoboSanta);
      if Mover(i) == Santa {
        assert InTurns(moves) == (Moved(InTurns(front).0, moves[i]), InTurns(front).1);
        assert MovesOf(moves, Santa) == santa + [moves[i]];
        assert MovesOf(moves, RoboSanta) == robo + [] == robo;
        PositionSnoc(santa, moves[i]);
      } else {
        assert InTurns(moves) == (InTurns(front).0, Moved(InTurns(front).1, moves[i]));
        assert MovesOf(moves, Santa) == santa + [] == santa;
        assert MovesOf(moves, RoboSanta) == robo + [moves[i]];
        PositionSnoc(robo, moves[i]);
      }
    }
  }

  /** On an input shorter than `i32::MAX` both positions fit an `i32`. */
  lemma InTurnsInRange(moves: string)
    requires |moves| <= I32Max
    ensures InI32(InTurns(moves).0.0) && InI32(InTurns(moves).0.1)
    ensures InI32(InTurns(moves).1.0) && InI32(InTurns(moves).1.1)
  {
    InTurnsOwnMoves(moves);
    PositionInRange(MovesOf(moves, Santa));
    PositionInRange(MovesOf(moves, RoboSanta));
  }

  /** The house of the deliverer who moved last, after `moves`. */
  function LastHouse(moves: string): string
    requires 0 < |moves| <= I32Max
  {
    InTurnsInRange(moves);
    var (santa, robo) := InTurns(moves);
    if Mover(|moves| - 1) == Santa then CoordsKey(santa.0, santa.1) else CoordsKey(robo.0, robo.1)
  }

  /** The houses of part two: the origin for each deliverer, then the house of whoever moved, after each move. */
  function InTurnsKeys(moves: string): (keys: seq<string>)
    requires |moves| <= I32Max
    ensures |keys| == |moves| + 2
  {
    if |moves| == 0 then [KeyAfter(moves), KeyAfter(moves)]
    else InTurnsKeys(moves[..|moves| - 1]) + [LastHouse(moves)]
  }

  /** One more character: the counts grow by one visit to the house of whoever moved. */
  lemma InTurnsStep(input: string, i: nat)
    requires i < |input| <= I32Max
    ensures Mover(i) == Santa ==> InTurns(input[..i + 1]) == (Moved(InTurns(input[..i]).0, input[i]), InTurns(input[..i]).1)
    ensures Mover(i) == RoboSanta ==> InTurns(input[..i + 1]) == (InTurns(input[..i]).0, Moved(InTurns(input[..i]).1, input[i]))
    ensures Tally(InTurnsKeys(input[..i + 1])) == Bump(Tally(InTurnsKeys(input[..i])), LastHouse(input[..i + 1]))
  {
    var moves := input[..i + 1];
    assert moves[..i] == input[..i] && moves[i] == input[i];
    var keys := InTurnsKeys(moves);
    assert keys[..|keys| - 1] == InTurnsKeys(input[..i]);
  }

  /** Before any character, both deliverers are at the origin and have visited it. */
  lemma InTurnsStart(input: string)
    requires |input| <= I32Max
    ensures InTurns(input[..0]) == ((0, 0), (0, 0))
    ensures Tally(InTurnsKeys(input[..0])) == Bump(Bump(map[], KeyAfter(input[..0])), KeyAfter(input[..0]))
  {
    assert input[..0] == [];
    var keys := InTurnsKeys([]);
    assert keys[..1] == [KeyAfter([])] && keys[..1][..0] == [];
  }

  /** The route of part two after the first `i` characters: positions and counts as the characters taken in turns leave them. */
  predicate AtTurn(route: SantaRoute, input: string, i: nat)
    requires i <= |input| <= I32Max
    reads route, route.santaPosition, route.roboPosition
  {
    route.Valid() &&
    route.santaPosition.x == InTurns(input[..i]).0.0 && route.santaPosition.y == InTurns(input[..i]).0.1 &&
    route.roboPosition.x == InTurns(input[..i]).1.0 && route.roboPosition.y == InTurns(input[..i]).1.1 &&
    route.visitedHouses == Tally(InTurnsKeys(input[..i]))
  }

  /**
   * One turn of part two (the body of the loop): the deliverer whose turn
   * it is moves by the `i`-th character and visits the house reached; the
   * other one stays put.
   */
  method TakeTurn(route: SantaRoute, input: string, i: nat, isSantaTurn: bool)
    requires i < |input| <= I32Max && AtTurn(route, input, i)
    requires isSantaTurn == (Mover(i) == Santa)
    modifies route`visitedHouses, route.santaPosition, route.roboPosition
    ensures route.santaPosition == old(route.santaPosition) && route.roboPosition == old(route.roboPosition)
    ensures AtTurn(route, input, i + 1)
  {
    InTurnsStep(input, i);
    InTurnsInRange(input[..i + 1]);
    var direction := Direction(input[i]);
    if isSantaTurn {
      route.santaPosition.Add(direction);
      route.VisitHouse(Santa);
    } else {
      route.roboPosition.Add(direction);
      route.VisitHouse(RoboSanta);
    }
  }

  /**
   * Part two: both deliverers visit the origin, then the characters move
   * Santa and Robo-Santa in turn, Santa first, and whoever moved visits the
   * house reached. Each deliverer ends where its own characters lead, and
   * the answer is the number of houses.
   */
  method DeliverInTurns(input: string) returns (houses: nat, route: SantaRoute)
    requires |input| <= I32Max
    ensures route.visitedHouses == Tally(InTurnsKeys(input))
    ensures houses == |route.visitedHouses|
    ensures (route.santaPosition.x, route.santaPosition.y) == Position(MovesOf(input, Santa))
    ensures (route.roboPosition.x, route.roboPosition.y) == Position(MovesOf(input, RoboSanta))
  {
    route := new SantaRoute();
    route.VisitHouse(Santa);
    route.VisitHouse(RoboSanta);
    InTurnsStart(input);
    var isSantaTurn := true;
    for i := 0 to |input|
      invariant fresh(route.santaPosition) && fresh(route.roboPosition)
      invariant isSantaTurn == (Mover(i) == Santa)
      invariant AtTurn(route, input, i)
    {
      MoverAlternates(i);
      TakeTurn(route, input, i, isSantaTurn);
      isSantaTurn := !isSantaTurn;
    }
    assert input[..|input|] == input;
    InTurnsOwnMoves(input);
    houses := |route.visitedHouses|;
  }
}
