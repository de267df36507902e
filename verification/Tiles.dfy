/** Condensing one line of a 2048 board and, by mirroring and transposing, a whole board. */
module Tiles {
  import opened Sequences

  datatype Cell = Empty | Tile(value: nat)

  type Line = seq<Cell>

  const SIDE: nat := 4
  const WINNING: nat := 128

  // ------------------------------------------------------------------ one line

  function Gapless(line: Line): (tiles: seq<nat>)
    ensures |tiles| <= |line|
  {
    if line == [] then []
    else (if line[0].Tile? then [line[0].value] else []) + Gapless(line[1..])
  }

  /** Front matches first: a tile merges with an equal neighbour, and what merged is done. */
  function Merge(tiles: seq<nat>): (merged: seq<nat>)
    ensures |merged| <= |tiles|
  {
    if |tiles| < 2 then tiles
    else if tiles[0] == tiles[1] then [tiles[0] * 2] + Merge(tiles[2..])
    else [tiles[0]] + Merge(tiles[1..])
  }

  function Padded(tiles: seq<nat>): (line: Line)
    ensures |line| == if |tiles| <= SIDE then SIDE else |tiles|
  {
    AsTiles(tiles) + Gaps(if |tiles| <= SIDE then SIDE - |tiles| else 0)
  }

  function AsTiles(tiles: seq<nat>): (line: Line)
    ensures |line| == |tiles|
    ensures forall i :: 0 <= i < |tiles| ==> line[i] == Tile(tiles[i])
  {
    if tiles == [] then [] else [Tile(tiles[0])] + AsTiles(tiles[1..])
  }

  function Gaps(n: nat): (line: Line)
    ensures |line| == n
    ensures forall i :: 0 <= i < n ==> line[i] == Empty
  {
    if n == 0 then [] else [Empty] + Gaps(n - 1)
  }

  function Condense(line: Line): (condensed: Line)
    ensures |line| <= SIDE ==> |condensed| == SIDE
  {
    Padded(Merge(Gapless(line)))
  }

  /** The source's loop with its index. */
  method CondenseSequence(line: Line) returns (condensed: Line)
    ensures condensed == Condense(line)
  {
    hide Merge, Gapless, Padded;
    var gapless := Gapless(line);
    var merged: seq<nat> := [];
    var i := 0;
    assert gapless[0..] == gapless;
    while i < |gapless|
      invariant i <= |gapless|
      invariant merged + Merge(gapless[i..]) == Merge(gapless)
    {
      MergeStep(gapless, i);
      if i + 1 < |gapless| && gapless[i] == gapless[i + 1] {
        assert merged + [gapless[i] * 2] + Merge(gapless[i + 2..]) ==
          merged + ([gapless[i] * 2] + Merge(gapless[i + 2..]));
        merged := merged + [gapless[i] * 2];
        i := i + 2;
      } else {
        assert merged + [gapless[i]] + Merge(gapless[i + 1..]) == merged + ([gapless[i]] + Merge(gapless[i + 1..]));
        merged := merged + [gapless[i]];
        i := i + 1;
      }
    }
    MergeEnds(gapless);
    assert merged == merged + [] == Merge(gapless);
    condensed := Padded(merged);
  }

  lemma MergeStep(tiles: seq<nat>, i: nat)
    requires i < |tiles|
    ensures Merge(tiles[i..]) ==
      if i + 1 < |tiles| && tiles[i] == tiles[i + 1] then [tiles[i] * 2] + Merge(tiles[i + 2..])
      else [tiles[i]] + Merge(tiles[i + 1..])
  {
    assert tiles[i..][1..] == tiles[i + 1..];
    if i + 1 < |tiles| {
      assert tiles[i..][2..] == tiles[i + 2..];
    }
  }

  lemma MergeEnds(tiles: seq<nat>)
    ensures Merge(tiles[|tiles|..]) == []
  {
  }

  // ------------------------------------------------- what condensing a line means

  /** Every group is one tile or two equal ones, and no single tile is followed by its equal. */
  ghost predicate Greedy(groups: seq<seq<nat>>) {
    && (forall k | 0 <= k < |groups| :: |groups[k]| == 1 || (|groups[k]| == 2 && groups[k][0] == groups[k][1]))
    && forall k | 0 <= k < |groups| - 1 :: |groups[k]| == 1 && |groups[k + 1]| > 0 ==> groups[k][0] != groups[k + 1][0]
  }

  /** Each group becomes its sum. */
  ghost predicate Sums(groups: seq<seq<nat>>, merged: seq<nat>) {
    |merged| == |groups|
    && forall k | 0 <= k < |groups| :: |groups[k]| > 0 && merged[k] == groups[k][0] * |groups[k]|
  }

  ghost function Groups(tiles: seq<nat>): seq<seq<nat>> {
    if tiles == [] then []
    else if |tiles| > 1 && tiles[0] == tiles[1] then [tiles[..2]] + Groups(tiles[2..])
    else [tiles[..1]] + Groups(tiles[1..])
  }

  lemma GreedyCons(first: seq<nat>, groups: seq<seq<nat>>)
    requires Greedy(groups) && (|first| == 1 || (|first| == 2 && first[0] == first[1]))
    requires groups != [] && |first| == 1 ==> groups[0] != [] && first[0] != groups[0][0]
    ensures Greedy([first] + groups)
  {
    var all := [first] + groups;
    assert forall k | 1 <= k < |all| :: all[k] == groups[k - 1];
  }

  /** Condensing cuts the tiles into greedy groups and sums them: order is kept, nothing is lost
      and no tile merges twice. */
  lemma {:induction false} MergeIsGreedy(tiles: seq<nat>)
    ensures Concat(Groups(tiles)) == tiles && Greedy(Groups(tiles)) && Sums(Groups(tiles), Merge(tiles))
    ensures tiles != [] ==> Groups(tiles) != [] && Groups(tiles)[0] != [] && Groups(tiles)[0][0] == tiles[0]
  {
    if tiles != [] {
      var n := if |tiles| > 1 && tiles[0] == tiles[1] then 2 else 1;
      var first, rest := tiles[..n], Groups(tiles[n..]);
      MergeIsGreedy(tiles[n..]);
      assert Groups(tiles) == [first] + rest;
      assert Merge(tiles) == [tiles[0] * n] + Merge(tiles[n..]);
      assert n == 1 && |tiles| > 1 ==> tiles[n..][0] == tiles[1];
      assert tiles == first + tiles[n..];
      hide Groups, Merge;
      GreedyCons(first, rest);
      hide Greedy;
    }
  }

  /** There is only one greedy grouping, so these properties fix the result. */
  lemma {:induction false} GreedyIsUnique(a: seq<seq<nat>>, b: seq<seq<nat>>)
    requires Greedy(a) && Greedy(b) && Concat(a) == Concat(b)
    ensures a == b
  {
    if a != [] {
      FirstGroup(a);
    }
    if b != [] {
      FirstGroup(b);
    }
    if a != [] && b != [] {
      assert Concat(a) == a[0] + Concat(a[1..]) && Concat(b) == b[0] + Concat(b[1..]);
      assert a[0] == b[0];
      assert Concat(a[1..]) == Concat(a)[|a[0]|..] && Concat(b[1..]) == Concat(b)[|b[0]|..];
      assert Greedy(a[1..]) && Greedy(b[1..]);
      GreedyIsUnique(a[1..], b[1..]);
    }
  }

  lemma FirstGroup(groups: seq<seq<nat>>)
    requires Greedy(groups) && groups != []
    ensures var tiles := Concat(groups);
      tiles != [] && groups[0] == if |tiles| > 1 && tiles[0] == tiles[1] then tiles[..2] else tiles[..1]
  {
    if |groups| > 1 {
      assert Concat(groups[1..]) == groups[1] + Concat(groups[2..]);
    } else {
      assert Concat(groups[1..]) == [];
    }
  }

  function Value(c: Cell): int {
    if c.Tile? then c.value else 0
  }

  function Filled(c: Cell): int {
    if c.Tile? then 1 else 0
  }

  function Sum(line: Line, weight: Cell -> int): int {
    if line == [] then 0 else weight(line[0]) + Sum(line[1..], weight)
  }

  function Total(tiles: seq<nat>): nat {
    if tiles == [] then 0 else tiles[0] + Total(tiles[1..])
  }

  lemma {:induction false} GaplessKeeps(line: Line)
    ensures Total(Gapless(line)) == Sum(line, Value) && |Gapless(line)| == Sum(line, Filled)
  {
    if line != [] {
      GaplessKeeps(line[1..]);
      var rest := Gapless(line[1..]);
      if line[0].Tile? {
        assert Gapless(line) == [line[0].value] + rest && ([line[0].value] + rest)[1..] == rest;
      } else {
        assert Gapless(line) == [] + rest == rest;
      }
    }
  }

  lemma {:induction false} MergeKeepsTotal(tiles: seq<nat>)
    ensures Total(Merge(tiles)) == Total(tiles)
  {
    if |tiles| >= 2 {
      if tiles[0] == tiles[1] {
        MergeKeepsTotal(tiles[2..]);
        assert tiles[1..][1..] == tiles[2..];
      } else {
        MergeKeepsTotal(tiles[1..]);
      }
    }
  }

  lemma {:induction false} SumAdds(a: Line, b: Line, weight: Cell -> int)
    ensures Sum(a + b, weight) == Sum(a, weight) + Sum(b, weight)
  {
    if a == [] {
      assert a + b == b;
    } else {
      assert (a + b)[1..] == a[1..] + b;
      SumAdds(a[1..], b, weight);
    }
  }

  lemma {:induction false} SumOfTiles(tiles: seq<nat>)
    ensures Sum(AsTiles(tiles), Value) == Total(tiles) && Sum(AsTiles(tiles), Filled) == |tiles|
  {
    if tiles != [] {
      SumOfTiles(tiles[1..]);
    }
  }

  lemma {:induction false} SumOfGaps(n: nat)
    ensures Sum(Gaps(n), Value) == 0 && Sum(Gaps(n), Filled) == 0
  {
    if n > 0 {
      SumOfGaps(n - 1);
    }
  }

  lemma CondensedParts(line: Line) returns (merged: seq<nat>)
    requires |line| <= SIDE
    ensures merged == Merge(Gapless(line)) && |merged| <= |Gapless(line)| <= SIDE
    ensures Condense(line) == AsTiles(merged) + Gaps(SIDE - |merged|)
  {
    merged := Merge(Gapless(line));
  }

  /** The total of a line is conserved and tiles never become more. */
  lemma CondenseKeeps(line: Line)
    requires |line| <= SIDE
    ensures Sum(Condense(line), Value) == Sum(line, Value) && Sum(Condense(line), Filled) <= Sum(line, Filled)
  {
    hide *;
    var merged := CondensedParts(line);
    GaplessKeeps(line);
    MergeKeepsTotal(Gapless(line));
    SumOfTiles(merged);
    SumOfGaps(SIDE - |merged|);
    SumAdds(AsTiles(merged), Gaps(SIDE - |merged|), Value);
    SumAdds(AsTiles(merged), Gaps(SIDE - |merged|), Filled);
  }

  /** All tiles come before all gaps. */
  lemma GapsAreLast(line: Line, i: nat, k: nat)
    requires |line| <= SIDE && i < k < SIDE && Condense(line)[i].Empty?
    ensures Condense(line)[k].Empty?
  {
    var merged := CondensedParts(line);
    hide Condense, Merge, Gapless;
  }

  // ------------------------------------------------------------- powers of two

  function Power(k: nat): (p: nat)
    ensures p >= 1
  {
    if k == 0 then 1 else 2 * Power(k - 1)
  }

  /** An empty cell, or a tile that is a power of two up to the limit. */
  ghost predicate Proper(c: Cell, limit: nat) {
    c.Tile? ==> c.value <= limit && exists k: nat :: k > 0 && c.value == Power(k)
  }

  ghost predicate AllProper(line: Line, limit: nat) {
    forall i | 0 <= i < |line| :: Proper(line[i], limit)
  }

  lemma {:induction false} PowerGrows(j: nat, k: nat)
    requires j <= k
    ensures Power(j) <= Power(k)
  {
    if j < k {
      PowerGrows(j, k - 1);
    }
  }

  /** A tile below 128 is at most 64. */
  lemma BelowWinning(c: Cell)
    requires Proper(c, WINNING) && Value(c) < WINNING
    ensures Proper(c, 64)
  {
    if c.Tile? {
      var k: nat :| k > 0 && c.value == Power(k);
      assert Power(6) == 64 && Power(7) == 128;
      if k >= 7 {
        PowerGrows(7, k);
      } else {
        PowerGrows(k, 6);
      }
    }
  }

  ghost predicate PowersUpTo(tiles: seq<nat>, limit: nat) {
    forall i | 0 <= i < |tiles| :: Proper(Tile(tiles[i]), limit)
  }

  lemma DoubleIsProper(value: nat, limit: nat)
    requires Proper(Tile(value), limit)
    ensures Proper(Tile(value * 2), 2 * limit) && Proper(Tile(value), 2 * limit)
  {
    var k: nat :| k > 0 && value == Power(k);
    assert value * 2 == Power(k + 1);
  }

  lemma {:induction false} MergeKeepsPowers(tiles: seq<nat>, limit: nat)
    requires PowersUpTo(tiles, limit)
    ensures PowersUpTo(Merge(tiles), 2 * limit)
  {
    forall i | 0 <= i < |tiles| ensures Proper(Tile(tiles[i] * 2), 2 * limit) && Proper(Tile(tiles[i]), 2 * limit) {
      DoubleIsProper(tiles[i], limit);
    }
    hide Proper;
    if |tiles| >= 2 {
      MergeKeepsPowers(if tiles[0] == tiles[1] then tiles[2..] else tiles[1..], limit);
      assert Proper(Tile(tiles[0] * 2), 2 * limit) && Proper(Tile(tiles[0]), 2 * limit);
    }
  }

  lemma {:induction false} GaplessKeepsPowers(line: Line, limit: nat)
    requires AllProper(line, limit)
    ensures PowersUpTo(Gapless(line), limit)
  {
    hide Proper;
    if line != [] {
      GaplessKeepsPowers(line[1..], limit);
      assert line[0].Tile? ==> line[0] == Tile(line[0].value);
    }
  }

  /** Condensing at most doubles a tile and keeps powers of two. */
  lemma CondenseKeepsPowers(line: Line, limit: nat)
    requires AllProper(line, limit) && |line| <= SIDE
    ensures AllProper(Condense(line), 2 * limit)
  {
    GaplessKeepsPowers(line, limit);
    MergeKeepsPowers(Gapless(line), limit);
    var merged := Merge(Gapless(line));
    forall i | 0 <= i < SIDE ensures Proper(Condense(line)[i], 2 * limit) {
      if i < |merged| {
        assert Condense(line)[i] == Tile(merged[i]) && Proper(Tile(merged[i]), 2 * limit);
      }
    }
  }
}
