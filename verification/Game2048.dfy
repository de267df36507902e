/** The 2048 game: a board that moves condense in place, and the loop that plays it. */
module Game2048 {
  import opened Tiles

  type Grid = seq<Line>

  datatype Direction = Left | Right | Up | Down

  /** What the model answers: a direction, or something that is no move. */
  datatype Answer = Go(direction: Direction) | Nonsense

  /** One random choice of a free cell and of the new tile. */
  datatype Chance = Chance(pick: nat, low: bool)

  ghost predicate Square(grid: Grid) {
    |grid| == SIDE && forall i :: 0 <= i < SIDE ==> |grid[i]| == SIDE
  }

  // -------------------------------------------------------------- grids as values

  function Reversed(line: Line): (r: Line)
    ensures |r| == |line|
  {
    seq(|line|, j requires 0 <= j < |line| => line[|line| - 1 - j])
  }

  function Mirror(grid: Grid): (m: Grid)
    requires Square(grid)
    ensures Square(m)
  {
    seq(SIDE, i requires 0 <= i < SIDE => Reversed(grid[i]))
  }

  function Transpose(grid: Grid): (t: Grid)
    requires Square(grid)
    ensures Square(t)
  {
    seq(SIDE, i requires 0 <= i < SIDE => seq(SIDE, j requires 0 <= j < SIDE => grid[j][i]))
  }

  function CondenseAll(grid: Grid): (c: Grid)
    requires Square(grid)
    ensures Square(c)
  {
    seq(SIDE, i requires 0 <= i < SIDE => Condense(grid[i]))
  }

  /** A move in any direction is a move to the left of the grid turned the right way. */
  function Moved(grid: Grid, direction: Direction): (m: Grid)
    requires Square(grid)
    ensures Square(m)
  {
    match direction
    case Left => CondenseAll(grid)
    case Right => Mirror(CondenseAll(Mirror(grid)))
    case Up => Transpose(CondenseAll(Transpose(grid)))
    case Down => Transpose(Mirror(CondenseAll(Mirror(Transpose(grid)))))
  }

  /** A line of the grid, as it is read from the edge that the tiles move to. */
  ghost function Facing(grid: Grid, direction: Direction, k: nat): (line: Line)
    requires Square(grid) && k < 4
    ensures |line| == 4
  {
    match direction
    case Left => [grid[k][0], grid[k][1], grid[k][2], grid[k][3]]
    case Right => [grid[k][3], grid[k][2], grid[k][1], grid[k][0]]
    case Up => [grid[0][k], grid[1][k], grid[2][k], grid[3][k]]
    case Down => [grid[3][k], grid[2][k], grid[1][k], grid[0][k]]
  }

  lemma MovedRow(grid: Grid, direction: Direction, k: nat)
    requires Square(grid) && k < 4 && (direction == Left || direction == Right)
    ensures Facing(Moved(grid, direction), direction, k) == Condense(Facing(grid, direction, k))
  {
    assert (if direction == Left then grid[k] else Mirror(grid)[k]) == Facing(grid, direction, k);
    hide Condense;
  }

  lemma MovedUp(grid: Grid, k: nat)
    requires Square(grid) && k < 4
    ensures Facing(Moved(grid, Up), Up, k) == Condense(Facing(grid, Up, k))
  {
    assert Transpose(grid)[k] == Facing(grid, Up, k);
    hide Condense;
  }

  lemma MovedDown(grid: Grid, k: nat)
    requires Square(grid) && k < 4
    ensures Facing(Moved(grid, Down), Down, k) == Condense(Facing(grid, Down, k))
  {
    assert Mirror(Transpose(grid))[k] == Facing(grid, Down, k);
    hide Condense;
  }

  /** A move condenses every line toward the edge that the tiles move to. */
  lemma MovedIs(grid: Grid, direction: Direction, k: nat)
    requires Square(grid) && k < 4
    ensures Facing(Moved(grid, direction), direction, k) == Condense(Facing(grid, direction, k))
  {
    hide Moved, Facing, Condense;
    match direction {
      case Left => MovedRow(grid, Left, k);
      case Right => MovedRow(grid, Right, k);
      case Up => MovedUp(grid, k);
      case Down => MovedDown(grid, k);
    }
  }

  function GridSum(grid: Grid, weight: Cell -> int): int {
    if grid == [] then 0 else Sum(grid[0], weight) + GridSum(grid[1..], weight)
  }

  ghost predicate GridProper(grid: Grid, limit: nat) {
    forall i :: 0 <= i < |grid| ==> AllProper(grid[i], limit)
  }

  lemma SumOfFour(line: Line, weight: Cell -> int)
    requires |line| == SIDE
    ensures Sum(line, weight) == weight(line[0]) + weight(line[1]) + weight(line[2]) + weight(line[3])
  {
    assert Sum(line, weight) == weight(line[0]) + Sum(line[1..], weight);
    assert Sum(line[1..], weight) == weight(line[1]) + Sum(line[2..], weight) by {
      assert line[1..][1..] == line[2..];
    }
    assert Sum(line[2..], weight) == weight(line[2]) + Sum(line[3..], weight) by {
      assert line[2..][1..] == line[3..];
    }
    assert Sum(line[3..], weight) == weight(line[3]) + Sum([], weight) by {
      assert line[3..][1..] == [];
    }
  }

  lemma GridSumOfFour(grid: Grid, weight: Cell -> int)
    requires Square(grid)
    ensures GridSum(grid, weight) ==
      Sum(grid[0], weight) + Sum(grid[1], weight) + Sum(grid[2], weight) + Sum(grid[3], weight)
  {
    assert grid[1..][1..] == grid[2..] && grid[2..][1..] == grid[3..] && grid[3..][1..] == [];
    hide Sum;
    assert GridSum(grid[3..], weight) == Sum(grid[3], weight);
    assert GridSum(grid[2..], weight) == Sum(grid[2], weight) + GridSum(grid[3..], weight);
    assert GridSum(grid[1..], weight) == Sum(grid[1], weight) + GridSum(grid[2..], weight);
  }

  lemma MirrorKeepsSum(grid: Grid, weight: Cell -> int)
    requires Square(grid)
    ensures GridSum(Mirror(grid), weight) == GridSum(grid, weight)
  {
    var m := Mirror(grid);
    forall i | 0 <= i < SIDE ensures Sum(m[i], weight) == Sum(grid[i], weight) {
      SumOfFour(m[i], weight);
      SumOfFour(grid[i], weight);
    }
    GridSumOfFour(m, weight);
    GridSumOfFour(grid, weight);
  }

  lemma TransposeKeepsSum(grid: Grid, weight: Cell -> int)
    requires Square(grid)
    ensures GridSum(Transpose(grid), weight) == GridSum(grid, weight)
  {
    var t := Transpose(grid);
    forall i | 0 <= i < SIDE
      ensures Sum(t[i], weight) == weight(grid[0][i]) + weight(grid[1][i]) + weight(grid[2][i]) + weight(grid[3][i])
    {
      SumOfFour(t[i], weight);
    }
    forall i | 0 <= i < SIDE
      ensures Sum(grid[i], weight) == weight(grid[i][0]) + weight(grid[i][1]) + weight(grid[i][2]) + weight(grid[i][3])
    {
      SumOfFour(grid[i], weight);
    }
    GridSumOfFour(t, weight);
    GridSumOfFour(grid, weight);
    hide GridSum, Sum, Transpose;
  }

  lemma CondenseAllKeeps(grid: Grid)
    requires Square(grid)
    ensures GridSum(CondenseAll(grid), Value) == GridSum(grid, Value)
    ensures GridSum(CondenseAll(grid), Filled) <= GridSum(grid, Filled)
  {
    var c := CondenseAll(grid);
    forall i | 0 <= i < SIDE
      ensures Sum(c[i], Value) == Sum(grid[i], Value) && Sum(c[i], Filled) <= Sum(grid[i], Filled)
    {
      CondenseKeeps(grid[i]);
    }
    GridSumOfFour(c, Value);
    GridSumOfFour(grid, Value);
    GridSumOfFour(c, Filled);
    GridSumOfFour(grid, Filled);
    hide *;
  }

  /** A move conserves the total and never adds a tile. */
  lemma MovedKeeps(grid: Grid, direction: Direction)
    requires Square(grid)
    ensures GridSum(Moved(grid, direction), Value) == GridSum(grid, Value)
    ensures GridSum(Moved(grid, direction), Filled) <= GridSum(grid, Filled)
  {
    hide GridSum, CondenseAll, Mirror, Transpose;
    forall g: Grid, w: Cell -> int | Square(g) ensures GridSum(Mirror(g), w) == GridSum(g, w) {
      MirrorKeepsSum(g, w);
    }
    forall g: Grid, w: Cell -> int | Square(g) ensures GridSum(Transpose(g), w) == GridSum(g, w) {
      TransposeKeepsSum(g, w);
    }
    match direction
    case Left => CondenseAllKeeps(grid);
    case Right => CondenseAllKeeps(Mirror(grid));
    case Up => CondenseAllKeeps(Transpose(grid));
    case Down => CondenseAllKeeps(Mirror(Transpose(grid)));
  }

  lemma TurnedIsProper(grid: Grid, limit: nat)
    requires Square(grid) && GridProper(grid, limit)
    ensures GridProper(Mirror(grid), limit) && GridProper(Transpose(grid), limit)
  {
    hide Proper;
  }

  lemma CondenseAllIsProper(grid: Grid, limit: nat)
    requires Square(grid) && GridProper(grid, limit)
    ensures GridProper(CondenseAll(grid), 2 * limit)
  {
    forall i | 0 <= i < SIDE ensures AllProper(CondenseAll(grid)[i], 2 * limit) {
      CondenseKeepsPowers(grid[i], limit);
    }
  }

  /** A move keeps powers of two and at most doubles the largest. */
  lemma MovedIsProper(grid: Grid, direction: Direction, limit: nat)
    requires Square(grid) && GridProper(grid, limit)
    ensures GridProper(Moved(grid, direction), 2 * limit)
  {
    hide GridProper, CondenseAll, Mirror, Transpose;
    forall g: Grid, l: nat | Square(g) && GridProper(g, l)
      ensures GridProper(Mirror(g), l) && GridProper(Transpose(g), l)
    {
      TurnedIsProper(g, l);
    }
    forall g: Grid | Square(g) && GridProper(g, limit) ensures GridProper(CondenseAll(g), 2 * limit) {
      CondenseAllIsProper(g, limit);
    }
  }

  // --------------------------------------------------------------- free cells

  predicate Free(grid: Grid, i: nat, j: nat)
    requires Square(grid)
  {
    i < SIDE && j < SIDE && grid[i][j].Empty?
  }

  /** The grid with one cell replaced. */
  function Put(grid: Grid, i: nat, j: nat, c: Cell): (g: Grid)
    requires Square(grid) && i < SIDE && j < SIDE
    ensures Square(g)
  {
    grid[i := grid[i][j := c]]
  }

  lemma PutAdds(grid: Grid, i: nat, j: nat, value: nat)
    requires Square(grid) && Free(grid, i, j)
    ensures var g := Put(grid, i, j, Tile(value));
      GridSum(g, Value) == GridSum(grid, Value) + value && GridSum(g, Filled) == GridSum(grid, Filled) + 1
  {
    var g := Put(grid, i, j, Tile(value));
    SumOfFour(g[i], Value);
    SumOfFour(grid[i], Value);
    SumOfFour(g[i], Filled);
    SumOfFour(grid[i], Filled);
    GridSumOfFour(g, Value);
    GridSumOfFour(grid, Value);
    GridSumOfFour(g, Filled);
    GridSumOfFour(grid, Filled);
    hide GridSum, Sum;
  }

  lemma LineBounds(line: Line, limit: nat)
    requires |line| == SIDE && AllProper(line, limit)
    ensures Sum(line, Value) <= limit * Sum(line, Filled) && 0 <= Sum(line, Filled) <= SIDE
    ensures Sum(line, Filled) == SIDE <==> forall j | 0 <= j < SIDE :: line[j].Tile?
    ensures 2 * Sum(line, Filled) <= Sum(line, Value)
  {
    SumOfFour(line, Value);
    SumOfFour(line, Filled);
    hide Sum;
    forall j | 0 <= j < SIDE
      ensures 0 <= Filled(line[j]) <= 1 && 2 * Filled(line[j]) <= Value(line[j]) <= limit * Filled(line[j])
    {
      if line[j].Tile? {
        var k: nat :| k > 0 && line[j].value == Power(k);
        assert line[j].value == 2 * Power(k - 1);
      }
    }
    hide *;
    Spread(limit, Filled(line[0]), Filled(line[1]), Filled(line[2]), Filled(line[3]));
    assert forall j | 0 <= j < SIDE :: line[j].Tile? <==> Filled(line[j]) == 1;
  }

  lemma Spread(n: int, a: int, b: int, c: int, d: int)
    ensures n * a + n * b + n * c + n * d == n * (a + b + c + d)
  {
  }

  /** A grid with a free cell has at most 15 tiles and so at most 15 times the limit; a grid
      without one has 16. */
  lemma GridBounds(grid: Grid, limit: nat)
    requires Square(grid) && GridProper(grid, limit)
    ensures GridSum(grid, Value) <= limit * GridSum(grid, Filled) && 0 <= GridSum(grid, Filled) <= 16
    ensures 2 * GridSum(grid, Filled) <= GridSum(grid, Value)
    ensures GridSum(grid, Filled) < 16 <==> exists i: nat, j: nat :: Free(grid, i, j)
  {
    GridSumOfFour(grid, Value);
    GridSumOfFour(grid, Filled);
    hide GridSum;
    forall i | 0 <= i < SIDE
      ensures 2 * Sum(grid[i], Filled) <= Sum(grid[i], Value) <= limit * Sum(grid[i], Filled)
      ensures 0 <= Sum(grid[i], Filled) <= SIDE
      ensures Sum(grid[i], Filled) == SIDE <==> forall j | 0 <= j < SIDE :: !Free(grid, i, j)
    {
      LineBounds(grid[i], limit);
      assert forall j: nat | j < SIDE :: Free(grid, i, j) <==> !grid[i][j].Tile?;
    }
    hide Sum, Free, GridProper;
    Spread(limit, Sum(grid[0], Filled), Sum(grid[1], Filled), Sum(grid[2], Filled), Sum(grid[3], Filled));
    if exists i: nat, j: nat :: Free(grid, i, j) {
      var i: nat, j: nat :| Free(grid, i, j);
      FreeIsInside(grid, i, j);
    }
  }

  lemma FreeIsInside(grid: Grid, i: nat, j: nat)
    requires Square(grid) && Free(grid, i, j)
    ensures i < SIDE && j < SIDE
  {
  }

  // ---------------------------------------------------------------------- the game

  /** A turn is due: some cell is free and no tile has reached the winning value. */
  ghost predicate InPlay(grid: Grid)
    requires Square(grid)
  {
    GridProper(grid, 64) && exists i: nat, j: nat :: Free(grid, i, j)
  }

  datatype Report = Report(invalid: bool, largest: nat, total: int, moves: nat, won: bool)

  function LineMax(line: Line): nat {
    if line == [] then 0
    else
      var rest := LineMax(line[1..]);
      if line[0].Tile? && line[0].value > rest then line[0].value else rest
  }

  function GridMax(grid: Grid): nat {
    if grid == [] then 0
    else
      var rest := GridMax(grid[1..]);
      if LineMax(grid[0]) > rest then LineMax(grid[0]) else rest
  }

  lemma {:induction false} LineMaxBounds(line: Line, limit: nat)
    ensures LineMax(line) <= limit <==> forall j | 0 <= j < |line| && line[j].Tile? :: line[j].value <= limit
  {
    if line != [] {
      LineMaxBounds(line[1..], limit);
      assert line == [line[0]] + line[1..];
    }
  }

  /** The maximum is the least bound on the tiles. */
  lemma {:induction false} GridMaxBounds(grid: Grid, limit: nat)
    ensures GridMax(grid) <= limit <==>
      forall i, j | 0 <= i < |grid| && 0 <= j < |grid[i]| && grid[i][j].Tile? :: grid[i][j].value <= limit
  {
    if grid != [] {
      LineMaxBounds(grid[0], limit);
      GridMaxBounds(grid[1..], limit);
      assert grid == [grid[0]] + grid[1..];
    }
  }

  /** A line pushed to its front, or to its back. */
  function Pushed(line: Line, mirrored: bool): (p: Line)
    requires |line| == SIDE
    ensures |p| == SIDE
  {
    if mirrored then Reversed(Condense(Reversed(line))) else Condense(line)
  }

  method Push(line: Line, mirrored: bool) returns (p: Line)
    requires |line| == SIDE
    ensures p == Pushed(line, mirrored)
  {
    p := CondenseSequence(if mirrored then Reversed(line) else line);
    if mirrored {
      p := Reversed(p);
    }
  }

  function Column(grid: Grid, k: nat): (column: Line)
    requires Square(grid) && k < SIDE
    ensures |column| == SIDE
  {
    seq(SIDE, i requires 0 <= i < SIDE => grid[i][k])
  }

  lemma RowsMoved(grid: Grid, mirrored: bool)
    requires Square(grid)
    ensures forall r, c | 0 <= r < SIDE && 0 <= c < SIDE ::
      Moved(grid, if mirrored then Right else Left)[r][c] == Pushed(grid[r], mirrored)[c]
  {
    hide Condense, Reversed;
  }

  lemma ColumnsMoved(grid: Grid, mirrored: bool)
    requires Square(grid)
    ensures forall r, c | 0 <= r < SIDE && 0 <= c < SIDE ::
      Moved(grid, if mirrored then Down else Up)[r][c] == Pushed(Column(grid, c), mirrored)[r]
  {
    forall c | 0 <= c < SIDE ensures Transpose(grid)[c] == Column(grid, c) {
    }
    hide Condense, Reversed, Column;
  }

  /** After a move of a grid that is in play there is still a free cell, and no tile is over the
      winning value. */
  lemma MovedLeavesRoom(grid: Grid, direction: Direction)
    requires Square(grid) && InPlay(grid)
    ensures GridProper(Moved(grid, direction), WINNING)
    ensures GridSum(Moved(grid, direction), Value) == GridSum(grid, Value)
    ensures exists i: nat, j: nat :: Free(Moved(grid, direction), i, j)
  {
    GridBounds(grid, 64);
    MovedKeeps(grid, direction);
    MovedIsProper(grid, direction, 64);
    GridBounds(Moved(grid, direction), WINNING);
  }

  class Game {
    const board: array2<Cell>

    ghost predicate Valid()
      reads board
    {
      board.Length0 == board.Length1 == SIDE
    }

    function Contents(): (grid: Grid)
      requires Valid()
      reads board
      ensures Square(grid)
    {
      seq(SIDE, i requires 0 <= i < SIDE reads board => seq(SIDE, j requires 0 <= j < SIDE reads board => board[i, j]))
    }

    /** An empty board with two random tiles. */
    constructor (first: Chance, second: Chance)
      ensures Valid() && fresh(board) && GridProper(Contents(), 4) && GridSum(Contents(), Filled) == 2
    {
      board := new Cell[SIDE, SIDE]((i, j) => Empty);
      new;
      EmptyGrid(Contents());
      Populate(first);
      GridBounds(Contents(), 4);
      Populate(second);
    }

    /** The free cells in reading order. */
    method Clear() returns (clear: seq<(nat, nat)>)
      requires Valid()
      ensures forall i: nat, j: nat :: (i, j) in clear <==> Free(Contents(), i, j)
    {
      clear := [];
      for i := 0 to SIDE
        invariant forall r: nat, c: nat :: (r, c) in clear <==> r < i && Free(Contents(), r, c)
      {
        for j := 0 to SIDE
          invariant forall r: nat, c: nat :: (r, c) in clear <==> (r < i || (r == i && c < j)) && Free(Contents(), r, c)
        {
          if board[i, j].Empty? {
            clear := clear + [(i, j)];
          }
        }
      }
    }

    /** Some free cell gets a 2 or a 4 and nothing else changes.  There must be a free cell. */
    method Populate(chance: Chance)
      requires Valid() && exists i: nat, j: nat :: Free(Contents(), i, j)
      modifies board
      ensures exists i: nat, j: nat ::
                Free(old(Contents()), i, j) &&
                  Contents() == Put(old(Contents()), i, j, Tile(if chance.low then 2 else 4))
      ensures forall limit: nat :: limit >= 4 && GridProper(old(Contents()), limit) ==> GridProper(Contents(), limit)
      ensures GridSum(Contents(), Value) == GridSum(old(Contents()), Value) + if chance.low then 2 else 4
      ensures GridSum(Contents(), Filled) == GridSum(old(Contents()), Filled) + 1
    {
      var clear := Clear();
      ghost var grid := Contents();
      ghost var r: nat, c: nat :| Free(grid, r, c);
      assert (r, c) in clear;
      var (i, j) := clear[chance.pick % |clear|];
      assert (i, j) in clear && Free(grid, i, j);
      var value := if chance.low then 2 else 4;
      board[i, j] := Tile(value);
      SameGrid(Contents(), Put(grid, i, j, Tile(value)));
      PutAdds(grid, i, j, value);
      PutIsProper(grid, i, j, value);
    }

    method CondenseRows(mirrored: bool)
      requires Valid()
      modifies board
      ensures Contents() == Moved(old(Contents()), if mirrored then Right else Left)
    {
      hide Pushed, Moved;
      ghost var grid := Contents();
      for i := 0 to SIDE
        invariant forall r, c | 0 <= r < SIDE && 0 <= c < SIDE ::
          board[r, c] == if r < i then Pushed(grid[r], mirrored)[c] else grid[r][c]
      {
        var row := seq(SIDE, j requires 0 <= j < SIDE reads board => board[i, j]);
        assert row == grid[i];
        var condensed := Push(row, mirrored);
        for j := 0 to |row|
          invariant forall r, c | 0 <= r < SIDE && 0 <= c < SIDE ::
            board[r, c] == if r < i || (r == i && c < j) then Pushed(grid[r], mirrored)[c] else grid[r][c]
        {
          board[i, j] := condensed[j];
        }
      }
      RowsMoved(grid, mirrored);
      SameGrid(Contents(), Moved(grid, if mirrored then Right else Left));
    }

    method CondenseColumns(mirrored: bool)
      requires Valid()
      modifies board
      ensures Contents() == Moved(old(Contents()), if mirrored then Down else Up)
    {
      hide Pushed, Moved;
      ghost var grid := Contents();
      for k := 0 to SIDE
        invariant forall r, c | 0 <= r < SIDE && 0 <= c < SIDE ::
          board[r, c] == if c < k then Pushed(Column(grid, c), mirrored)[r] else grid[r][c]
      {
        var column := seq(SIDE, i requires 0 <= i < SIDE reads board => board[i, k]);
        assert column == Column(grid, k);
        var condensed := Push(column, mirrored);
        for i := 0 to |column|
          invariant forall r, c | 0 <= r < SIDE && 0 <= c < SIDE ::
            board[r, c] == if c < k || (c == k && r < i) then Pushed(Column(grid, c), mirrored)[r] else grid[r][c]
        {
          board[i, k] := condensed[i];
        }
      }
      ColumnsMoved(grid, mirrored);
      SameGrid(Contents(), Moved(grid, if mirrored then Down else Up));
    }

    method CondenseBoard(direction: Direction)
      requires Valid()
      modifies board
      ensures Contents() == Moved(old(Contents()), direction)
    {
      match direction
      case Left => CondenseRows(false);
      case Right => CondenseRows(true);
      case Up => CondenseColumns(false);
      case Down => CondenseColumns(true);
    }

    /** The move: condense, then a new tile.  Whatever is no move raises before the board changes. */
    method ApplyAgentMove(answer: Answer, chance: Chance) returns (valid: bool)
      requires Valid() && InPlay(Contents())
      modifies board
      ensures valid == answer.Go?
      ensures !valid ==> Contents() == old(Contents())
      ensures valid ==> GridProper(Contents(), WINNING)
      ensures valid ==> GridSum(Contents(), Value) == GridSum(old(Contents()), Value) + if chance.low then 2 else 4
      ensures valid ==> exists i: nat, j: nat ::
                          Free(Moved(old(Contents()), answer.direction), i, j) &&
                          Contents() ==
                            Put(Moved(old(Contents()), answer.direction), i, j, Tile(if chance.low then 2 else 4))
    {
      if answer.Nonsense? {
        return false;
      }
      ghost var grid := Contents();
      MovedLeavesRoom(grid, answer.direction);
      CondenseBoard(answer.direction);
      Populate(chance);
      valid := true;
    }
  }

  predicate Finished(grid: Grid)
    requires Square(grid)
  {
    GridMax(grid) >= WINNING || forall i, j | 0 <= i < SIDE && 0 <= j < SIDE :: grid[i][j].Tile?
  }

  /** A grid that is not finished is in play. */
  lemma UnfinishedIsInPlay(grid: Grid)
    requires Square(grid) && GridProper(grid, WINNING) && !Finished(grid)
    ensures InPlay(grid)
  {
    GridMaxBounds(grid, 127);
    forall i, j | 0 <= i < SIDE && 0 <= j < SIDE ensures Proper(grid[i][j], 64) {
      assert AllProper(grid[i], WINNING);
      BelowWinning(grid[i][j]);
    }
    var i, j :| 0 <= i < SIDE && 0 <= j < SIDE && !grid[i][j].Tile?;
    assert Free(grid, i, j);
  }

  /** The largest tile is over 127 only if it is 128. */
  lemma WonIsExact(grid: Grid)
    requires Square(grid) && GridProper(grid, WINNING)
    ensures GridMax(grid) <= WINNING
  {
    forall i, j | 0 <= i < SIDE && 0 <= j < SIDE && grid[i][j].Tile? ensures grid[i][j].value <= WINNING {
      assert AllProper(grid[i], WINNING);
    }
    GridMaxBounds(grid, WINNING);
  }

  /** One game against any answers.  It makes at most 479 valid moves; it ends at the first answer
      that is no move, or as soon as a tile is 128 or the board is full; every valid move has added
      a tile of 2 or 4 to the total; and it is won exactly if the largest tile is 128. */
  method Rollout(first: Chance, second: Chance, answers: nat -> Answer, chances: nat -> Chance)
    returns (game: Game, report: Report)
    ensures game.Valid() && GridProper(game.Contents(), WINNING)
    ensures report.moves <= 479
    ensures forall k: nat | k < report.moves :: answers(k).Go?
    ensures report.invalid ==> answers(report.moves).Nonsense? && InPlay(game.Contents())
    ensures !report.invalid ==> report.moves > 0 && Finished(game.Contents())
    ensures report.total == GridSum(game.Contents(), Value) && report.largest == GridMax(game.Contents()) <= WINNING
    ensures 4 + 2 * report.moves <= report.total <= 8 + 4 * report.moves
    ensures report.won <==> exists i, j | 0 <= i < SIDE && 0 <= j < SIDE :: game.Contents()[i][j] == Tile(WINNING)
    ensures !report.won && !report.invalid ==> GridSum(game.Contents(), Filled) == 16
  {
    hide Finished, GridMax, GridSum, InPlay, GridProper, Put, Moved, Free;
    game := new Game(first, second);
    StartsInPlay(game.Contents());
    var moves, invalid := 0, false;
    while true
      invariant game.Valid() && fresh(game.board) && InPlay(game.Contents()) && !invalid
      invariant 4 + 2 * moves <= GridSum(game.Contents(), Value) <= 8 + 4 * moves
      invariant forall k: nat | k < moves :: answers(k).Go?
      decreases 960 - moves
    {
      InPlayIsSmall(game.Contents());
      var valid := game.ApplyAgentMove(answers(moves), chances(moves));
      if !valid {
        invalid := true;
        break;
      }
      moves := moves + 1;
      if Finished(game.Contents()) {
        break;
      }
      UnfinishedIsInPlay(game.Contents());
    }
    var grid := game.Contents();
    EndsAsReported(grid);
    report := Report(invalid, GridMax(grid), GridSum(grid, Value), moves, GridMax(grid) == WINNING);
  }

  lemma StartsInPlay(grid: Grid)
    requires Square(grid) && GridProper(grid, 4) && GridSum(grid, Filled) == 2
    ensures InPlay(grid) && 4 <= GridSum(grid, Value) <= 8
  {
    GridBounds(grid, 4);
    hide Free, GridSum;
  }

  lemma InPlayIsSmall(grid: Grid)
    requires Square(grid) && InPlay(grid)
    ensures GridSum(grid, Value) <= 960
  {
    GridBounds(grid, 64);
  }

  lemma EndsAsReported(grid: Grid)
    requires Square(grid) && (InPlay(grid) || (GridProper(grid, WINNING) && Finished(grid)))
    ensures GridProper(grid, WINNING) && GridMax(grid) <= WINNING
    ensures GridMax(grid) == WINNING <==> exists i, j | 0 <= i < SIDE && 0 <= j < SIDE :: grid[i][j] == Tile(WINNING)
    ensures GridMax(grid) < WINNING && Finished(grid) ==> GridSum(grid, Filled) == 16
  {
    hide GridSum, GridMax;
    WonIsExact(grid);
    GridMaxBounds(grid, 127);
    GridBounds(grid, WINNING);
    assert forall i: nat, j: nat :: Free(grid, i, j) ==> !grid[i][j].Tile?;
  }

  lemma SameGrid(a: Grid, b: Grid)
    requires Square(a) && Square(b) && forall i, j | 0 <= i < SIDE && 0 <= j < SIDE :: a[i][j] == b[i][j]
    ensures a == b
  {
    forall i | 0 <= i < SIDE ensures a[i] == b[i] {
    }
  }

  lemma PutIsProper(grid: Grid, i: nat, j: nat, value: nat)
    requires Square(grid) && i < SIDE && j < SIDE && (value == 2 || value == 4)
    ensures forall limit: nat ::
      limit >= 4 && GridProper(grid, limit) ==> GridProper(Put(grid, i, j, Tile(value)), limit)
  {
    assert Power(1) == 2 && Power(2) == 4;
    assert forall limit: nat :: limit >= 4 ==> Proper(Tile(value), limit);
    hide Proper;
  }

  lemma EmptyGrid(grid: Grid)
    requires Square(grid) && forall i, j | 0 <= i < SIDE && 0 <= j < SIDE :: grid[i][j] == Empty
    ensures GridProper(grid, 4) && GridSum(grid, Filled) == 0 && Free(grid, 0, 0)
  {
    GridSumOfFour(grid, Filled);
    forall i | 0 <= i < SIDE ensures Sum(grid[i], Filled) == 0 {
      SumOfFour(grid[i], Filled);
    }
  }
}
