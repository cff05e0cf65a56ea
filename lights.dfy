/**
 * The light grid (2015 day 6): a square of 1000 by 1000 lights stored
 * row by row in one flat buffer of `u32` values, updated in place by
 * rectangle commands. Part one treats a light as on (1) or off (0); part
 * two treats the value as a brightness.
 */
module Lights {
  import opened Wrappers
  import opened Ints

  /** The side of the grid. */
  const Size: nat := 1000

  datatype CommandOperation = TurnOn | TurnOff | Toggle

  /**
   * A command: an operation and two opposite corners of an inclusive
   * rectangle, given as (x, y) pairs in either order.
   */
  datatype Command = Command(operation: CommandOperation, start: (int, int), end: (int, int))

  /** `is_pos_out_of_bounds`. */
  predicate OutOfBounds(x: int, y: int) {
    x < 0 || y < 0 || x >= Size || y >= Size
  }

  /** `vector_to_index`: row-major position of (x, y) in the flat buffer. */
  function VectorToIndex(x: int, y: int): (index: int)
    ensures !OutOfBounds(x, y) ==> 0 <= index < Size * Size
  {
    y * Size + x
  }

  /** `index_to_vector`: the column and row of a buffer index. */
  function IndexToVector(index: nat): (v: (int, int))
    ensures index < Size * Size ==> !OutOfBounds(v.0, v.1)
    ensures VectorToIndex(v.0, v.1) == index
  {
    (index % Size, index / Size)
  }

  /** Every in-bounds position has an index in the buffer, and that index leads back to it. */
  lemma VectorIndexRoundTrip(x: int, y: int)
    requires !OutOfBounds(x, y)
    ensures 0 <= VectorToIndex(x, y) < Size * Size
    ensures IndexToVector(VectorToIndex(x, y)) == (x, y)
  {
    var i := y * Size + x;
    assert i / Size == y && i % Size == x;
  }

  /** Every buffer index is an in-bounds position, and that position leads back to it. */
  lemma IndexVectorRoundTrip(index: nat)
    requires index < Size * Size
    ensures !OutOfBounds(IndexToVector(index).0, IndexToVector(index).1)
    ensures VectorToIndex(IndexToVector(index).0, IndexToVector(index).1) == index
  {
  }

  function Min(a: int, b: int): int { if a <= b then a else b }

  function Max(a: int, b: int): int { if a <= b then b else a }

  /** The inclusive rectangle between the corners once each axis is sorted. */
  predicate InRect(cmd: Command, x: int, y: int)
  {
    && Min(cmd.start.0, cmd.end.0) <= x <= Max(cmd.start.0, cmd.end.0)
    && Min(cmd.start.1, cmd.end.1) <= y <= Max(cmd.start.1, cmd.end.1)
  }

  /** Sorting the corners makes the rectangle independent of which corner comes first, axis by axis. */
  lemma CornerOrderIrrelevant(op: CommandOperation, a: (int, int), b: (int, int), x: int, y: int)
    ensures InRect(Command(op, a, b), x, y) == InRect(Command(op, b, a), x, y)
    ensures InRect(Command(op, a, b), x, y) == InRect(Command(op, (a.0, b.1), (b.0, a.1)), x, y)
  {
  }

  /** What `exec` makes of one light in the rectangle. */
  function Switched(op: CommandOperation, light: nat): (r: nat)
    ensures r <= 1
    ensures op == Toggle && light <= 1 ==> r == 1 - light
  {
    match op
    case TurnOn => 1
    case TurnOff => 0
    case Toggle => if light == 0 then 1 else 0
  }

  /** What `exec_pt2` makes of one light in the rectangle. */
  function Dimmed(op: CommandOperation, light: nat): (r: nat)
    ensures light <= r + 1 && r <= light + 2
    ensures r < light ==> op == TurnOff
  {
    match op
    case TurnOn => light + 1
    case TurnOff => if light == 0 then 0 else light - 1
    case Toggle => light + 2
  }

  /**
   * Part one keeps every light on or off, `turn on` and `turn off` forget
   * the light's state, and `toggle` flips an on/off light.
   */
  lemma SwitchedFacts(op: CommandOperation, light: nat)
    ensures op != Toggle ==> Switched(op, light) == Switched(op, 0)
    ensures light <= 1 ==> (Switched(Toggle, light) == 1 <==> light == 0)
  {
  }

  /**
   * Part two: `turn off` undoes `turn on`, `toggle` is `turn on` twice, and
   * a light ends at zero only when `turn off` is applied to a light of at
   * most one.
   */
  lemma DimmedFacts(op: CommandOperation, light: nat)
    ensures Dimmed(TurnOff, Dimmed(TurnOn, light)) == light
    ensures Dimmed(Toggle, light) == Dimmed(TurnOn, Dimmed(TurnOn, light))
    ensures Dimmed(op, light) == 0 <==> op == TurnOff && light <= 1
  {
  }

  /** One light's brightness after a run of commands that all cover it. */
  function DimmedAll(ops: seq<CommandOperation>, light: nat): nat
  {
    if |ops| == 0 then light else Dimmed(ops[|ops| - 1], DimmedAll(ops[..|ops| - 1], light))
  }

  /** What the commands add: one per `turn on`, two per `toggle`. */
  function Raised(ops: seq<CommandOperation>): nat
  {
    if |ops| == 0 then 0
    else Raised(ops[..|ops| - 1]) + match ops[|ops| - 1] case TurnOn => 1 case Toggle => 2 case TurnOff => 0
  }

  /** How many `turn off` commands there are. */
  function Lowered(ops: seq<CommandOperation>): nat
  {
    if |ops| == 0 then 0 else Lowered(ops[..|ops| - 1]) + if ops[|ops| - 1] == TurnOff then 1 else 0
  }

  /**
   * The brightness after a run of commands never exceeds the start plus
   * what the commands add, and falls short of it by at most one per
   * `turn off`, the shortfall coming only from `turn off` on a dark light.
   */
  lemma {:induction false} DimmedAllBounds(ops: seq<CommandOperation>, light: nat)
    ensures DimmedAll(ops, light) <= light + Raised(ops)
    ensures DimmedAll(ops, light) + Lowered(ops) >= light + Raised(ops)
  {
    if |ops| > 0 {
      DimmedAllBounds(ops[..|ops| - 1], light);
    }
  }

  /** On a light that is on or off, an even run of toggles leaves it as it was and an odd one flips it. */
  lemma {:induction false} TogglesParity(n: nat, light: nat)
    requires light <= 1
    ensures SwitchedAll(seq(n, _ => Toggle), light) == (light + n) % 2
  {
    if n > 0 {
      var ops := seq(n, _ => Toggle);
      assert ops[..n - 1] == seq(n - 1, _ => Toggle);
      TogglesParity(n - 1, light);
    }
  }

  /** One light's part-one state after a run of commands that all cover it. */
  function SwitchedAll(ops: seq<CommandOperation>, light: nat): nat
  {
    if |ops| == 0 then light else Switched(ops[|ops| - 1], SwitchedAll(ops[..|ops| - 1], light))
  }

  /** After a `turn on` or `turn off`, the earlier commands and the starting state no longer matter. */
  lemma {:induction false} SwitchedAllForgets(before: seq<CommandOperation>, op: CommandOperation, after: seq<CommandOperation>, light: nat, other: nat)
    requires op != Toggle
    ensures SwitchedAll(before + [op] + after, light) == SwitchedAll([op] + after, other)
  {
    if |after| == 0 {
      assert (before + [op] + after)[..|before|] == before;
      assert [op] + after == [op];
      assert ([op])[..0] == [];
    } else {
      var last := after[|after| - 1];
      SwitchedAllForgets(before, op, after[..|after| - 1], light, other);
      assert (before + [op] + after)[..|before + [op] + after| - 1] == before + [op] + after[..|after| - 1];
      assert ([op] + after)[..|after|] == [op] + after[..|after| - 1];
    }
  }

  /** The cells whose column is in `x0 .. x1 - 1` and whose row is in `y0 .. y1 - 1`. */
  ghost predicate Covered(index: nat, x0: int, x1: int, y0: int, y1: int)
  {
    x0 <= index % Size < x1 && y0 <= index / Size < y1
  }

  class Lights {
    const grid: array<nat>

    ghost predicate Valid() {
      grid.Length == Size * Size
    }

    /** `Lights::new`: every light off. */
    constructor()
      ensures Valid() && fresh(grid)
      ensures forall i :: 0 <= i < grid.Length ==> grid[i] == 0
    {
      grid := new nat[Size * Size](_ => 0);
    }

    /** `get`: the light at (x, y), or None outside the grid. */
    function Get(x: int, y: int): (r: Option<nat>)
      requires Valid()
      reads grid
      ensures r.Some? <==> !OutOfBounds(x, y)
      ensures r.Some? ==> 0 <= VectorToIndex(x, y) < grid.Length && r.value == grid[VectorToIndex(x, y)]
    {
      if OutOfBounds(x, y) then None
      else
        VectorIndexRoundTrip(x, y);
        Some(grid[VectorToIndex(x, y)])
    }

    /** `set`: writes one light and reports true, or reports false outside the grid and writes nothing. */
    method Set(x: int, y: int, state: nat) returns (ok: bool)
      requires Valid()
      modifies grid
      ensures ok <==> !OutOfBounds(x, y)
      ensures forall i :: 0 <= i < grid.Length ==>
        grid[i] == if ok && i == VectorToIndex(x, y) then state else old(grid[i])
    {
      if OutOfBounds(x, y) {
        return false;
      }
      VectorIndexRoundTrip(x, y);
      grid[VectorToIndex(x, y)] := state;
      return true;
    }

    /**
     * `exec`: every light inside the rectangle is switched, every other
     * light keeps its value. The corners are cast to `usize` before
     * sorting, so they must not be negative; `x as i32` in the loop needs
     * them to fit in `i32`.
     */
    method Exec(cmd: Command)
      requires Valid()
      requires 0 <= cmd.start.0 <= I32Max && 0 <= cmd.end.0 <= I32Max
      requires 0 <= cmd.start.1 <= I32Max && 0 <= cmd.end.1 <= I32Max
      modifies grid
      ensures forall i :: 0 <= i < grid.Length ==>
        grid[i] == if InRect(cmd, IndexToVector(i).0, IndexToVector(i).1) then Switched(cmd.operation, old(grid[i])) else old(grid[i])
    {
      var xStart, xEnd := Min(cmd.start.0, cmd.end.0), Max(cmd.start.0, cmd.end.0);
      var yStart, yEnd := Min(cmd.start.1, cmd.end.1), Max(cmd.start.1, cmd.end.1);
      ghost var before := grid[..];
      for x := xStart to xEnd + 1
        invariant forall i :: 0 <= i < grid.Length ==>
          grid[i] == if Covered(i, xStart, x, yStart, yEnd + 1) then Switched(cmd.operation, before[i]) else before[i]
      {
        for y := yStart to yEnd + 1
          invariant forall i :: 0 <= i < grid.Length ==>
            grid[i] == if Covered(i, xStart, x, yStart, yEnd + 1) || Covered(i, x, x + 1, yStart, y)
              then Switched(cmd.operation, before[i]) else before[i]
        {
          var light := Get(x, y);
          if light.Some? {
            VectorIndexRoundTrip(x, y);
            var _ := Set(x, y, Switched(cmd.operation, light.value));
          }
        }
      }
    }

    /**
     * `exec_pt2`: every light inside the rectangle is dimmed or brightened,
     * every other light keeps its value. The additions are on `u32`, so the
     * lights must have room for two more.
     */
    method ExecPt2(cmd: Command)
      requires Valid()
      requires 0 <= cmd.start.0 <= I32Max && 0 <= cmd.end.0 <= I32Max
      requires 0 <= cmd.start.1 <= I32Max && 0 <= cmd.end.1 <= I32Max
      requires forall i :: 0 <= i < grid.Length ==> grid[i] <= U32Max - 2
      modifies grid
      ensures forall i :: 0 <= i < grid.Length ==>
        grid[i] == if InRect(cmd, IndexToVector(i).0, IndexToVector(i).1) then Dimmed(cmd.operation, old(grid[i])) else old(grid[i])
    {
      var xStart, xEnd := Min(cmd.start.0, cmd.end.0), Max(cmd.start.0, cmd.end.0);
      var yStart, yEnd := Min(cmd.start.1, cmd.end.1), Max(cmd.start.1, cmd.end.1);
      ghost var before := grid[..];
      for x := xStart to xEnd + 1
        invariant forall i :: 0 <= i < grid.Length ==>
          grid[i] == if Covered(i, xStart, x, yStart, yEnd + 1) then Dimmed(cmd.operation, before[i]) else before[i]
      {
        for y := yStart to yEnd + 1
          invariant forall i :: 0 <= i < grid.Length ==>
            grid[i] == if Covered(i, xStart, x, yStart, yEnd + 1) || Covered(i, x, x + 1, yStart, y)
              then Dimmed(cmd.operation, before[i]) else before[i]
        {
          var light := Get(x, y);
          if light.Some? {
            VectorIndexRoundTrip(x, y);
            var _ := Set(x, y, Dimmed(cmd.operation, light.value));
          }
        }
      }
    }
  }

  /** The source's creation and `set` tests: corners start off, in-bounds writes land, out-of-bounds ones are refused. */
  method CreationAndSetExample()
  {
    var lights := new Lights();
    assert lights.Get(0, 0) == Some(0);
    assert lights.Get(999, 999) == Some(0);
    assert lights.Get(1000, 1000).None? && lights.Get(-1, 0).None? && lights.Get(0, -1).None?;
    var ok := lights.Set(0, 0, 1);
    assert ok && lights.Get(0, 0) == Some(1);
    ok := lights.Set(999, 999, 1);
    assert ok && lights.Get(999, 999) == Some(1);
    ok := lights.Set(1000, 1000, 1);
    assert !ok;
  }
}
