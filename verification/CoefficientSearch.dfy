/** Lowering the selection loss directly: a coordinate search over the coefficients, and the
    repair of the rounded production table on the integer grid. */
module CoefficientSearch {
  import RealVectors
  import Selection

  type Vec = RealVectors.Vec

  datatype Problem = Problem(candidates: seq<Selection.Candidate>, rows: seq<Vec>)

  /** A step counts only if it gains more than this. */
  const STEP: real := 0.000000001

  ghost predicate Proper(problem: Problem, n: nat) {
    && Selection.Timed(problem.candidates) && |problem.rows| == |problem.candidates|
    && Selection.Square(problem.rows, n)
  }

  function Loss(problem: Problem, beta: Vec): real
    requires Proper(problem, |beta|)
  {
    Selection.SelectionLoss(problem.candidates, Selection.Predictions(problem.rows, beta))
  }

  /** It is the selection loss of the predictions that the rows and the coefficients make. */
  lemma LossIs(problem: Problem, beta: Vec, predicted: Vec)
    requires Proper(problem, |beta|) && |predicted| == |problem.rows|
    requires forall i :: 0 <= i < |predicted| ==> predicted[i] == RealVectors.Dot(problem.rows[i], beta)
    ensures Loss(problem, beta) == Selection.SelectionLoss(problem.candidates, predicted)
  {
    assert predicted == Selection.Predictions(problem.rows, beta);
  }

  /** What the search tries in place of a coefficient. */
  function Trials(current: real, floor: real): seq<real> {
    (if current > 0.0
     then [current * 0.25, current * 0.5, current * 0.8, current * 1.25, current * 2.0, current * 4.0] else [])
    + [0.0]
    + if current == 0.0 then [floor, floor * 10.0, floor * 100.0, floor * 1000.0] else []
  }

  /** No single trial gains more than a step. */
  ghost predicate Settled(problem: Problem, beta: Vec, floor: real)
    requires Proper(problem, |beta|)
  {
    forall j | 0 <= j < |beta| :: SettledAt(problem, beta, floor, j)
  }

  /** Six multiples of a positive coefficient, zero, and four multiples of the floor in place of a zero. */
  ghost predicate Tried(current: real, floor: real, trial: real) {
    || trial == 0.0
    || (current > 0.0
        && (trial == current * 0.25 || trial == current * 0.5 || trial == current * 0.8 || trial == current * 1.25
            || trial == current * 2.0 || trial == current * 4.0))
    || (current == 0.0
        && (trial == floor || trial == floor * 10.0 || trial == floor * 100.0 || trial == floor * 1000.0))
  }

  lemma TrialsAreTried(current: real, floor: real, trial: real)
    ensures trial in Trials(current, floor) <==> Tried(current, floor, trial)
  {
    var many := if current > 0.0
      then [current * 0.25, current * 0.5, current * 0.8, current * 1.25, current * 2.0, current * 4.0] else [];
    var few := if current == 0.0 then [floor, floor * 10.0, floor * 100.0, floor * 1000.0] else [];
    assert Trials(current, floor) == many + [0.0] + few;
    hide Trials;
  }

  ghost predicate SettledAt(problem: Problem, beta: Vec, floor: real, j: nat)
    requires Proper(problem, |beta|) && j < |beta|
  {
    forall trial | Tried(beta[j], floor, trial) :: Loss(problem, beta[j := trial]) >= Loss(problem, beta) - 0.000000001
  }

  /** All trials for one coefficient; the best one so far is kept. */
  method TryCoordinate(problem: Problem, start: Vec, loss: real, j: nat, floor: real)
    returns (best: real, beta: Vec, improved: bool)
    requires Proper(problem, |start|) && j < |start| && loss == Loss(problem, start)
    ensures |beta| == |start| && best == Loss(problem, beta)
    ensures if improved then best < loss - 0.000000001 else beta == start && SettledAt(problem, start, floor, j)
    ensures RealVectors.NonNegative(start) && floor >= 0.0 ==> RealVectors.NonNegative(beta)
  {
    hide Loss;
    best, beta, improved := loss, start, false;
    var current := start[j];
    var trials := Trials(current, floor);
    for k := 0 to |trials|
      invariant |beta| == |start| && beta == start[j := beta[j]] && best == Loss(problem, beta)
      invariant if improved then best < loss - 0.000000001
                else beta == start && forall i | 0 <= i < k ::
                                        Loss(problem, start[j := trials[i]]) >= loss - 0.000000001
      invariant RealVectors.NonNegative(start) && floor >= 0.0 ==> beta[j] >= 0.0
    {
      var trial := trials[k];
      if trial == current {
        assert start[j := trial] == start;
        continue;
      }
      var changed := beta[j := trial];
      assert changed == start[j := trial];
      var value := Loss(problem, changed);
      if value < best - STEP {
        best, beta, improved := value, changed, true;
      }
    }
    if !improved {
      forall trial | Tried(current, floor, trial) ensures Loss(problem, start[j := trial]) >= loss - 0.000000001 {
        TrialsAreTried(current, floor, trial);
        var k :| 0 <= k < |trials| && trials[k] == trial;
      }
    }
  }

  /** Up to `sweeps` rounds over the coefficients, until a round gains nothing. */
  method Search(problem: Problem, start: Vec, order: seq<nat>, sweeps: nat, floor: real) returns (best: real, beta: Vec)
    requires Proper(problem, |start|)
    requires (forall j | 0 <= j < |start| :: j in order) && forall j <- order :: j < |start|
    ensures |beta| == |start| && best == Loss(problem, beta) && best <= Loss(problem, start)
    ensures Settled(problem, beta, floor) || best <= Loss(problem, start) - sweeps as real * 0.000000001
    ensures RealVectors.NonNegative(start) && floor >= 0.0 ==> RealVectors.NonNegative(beta)
  {
    hide Loss;
    best, beta := Loss(problem, start), start;
    for sweep := 0 to sweeps
      invariant |beta| == |start| && best == Loss(problem, beta)
      invariant best <= Loss(problem, start) - sweep as real * 0.000000001
      invariant RealVectors.NonNegative(start) && floor >= 0.0 ==> RealVectors.NonNegative(beta)
    {
      var improved := false;
      ghost var before, was := best, beta;
      for k := 0 to |order|
        invariant |beta| == |start| && best == Loss(problem, beta)
        invariant if improved then best < before - 0.000000001
                  else best == before && beta == was && forall i | 0 <= i < k ::
                         order[i] in order && SettledAt(problem, was, floor, order[i])
        invariant RealVectors.NonNegative(start) && floor >= 0.0 ==> RealVectors.NonNegative(beta)
      {
        assert order[k] in order;
        var value, next, better := TryCoordinate(problem, beta, best, order[k], floor);
        best, beta, improved := value, next, improved || better;
      }
      if !improved {
        forall j | 0 <= j < |was| ensures SettledAt(problem, was, floor, j) {
          assert j in order;
          var i :| 0 <= i < |order| && order[i] == j;
          assert order[i] in order;
        }
        return;
      }
    }
  }

  function Floor(start: Vec): (floor: real)
    ensures floor > 0.0
  {
    var positive := Positive(start);
    if positive == [] then 0.001 else positive[Selection.FirstLeast(positive)] * 0.001
  }

  /** A thousandth of the smallest positive coefficient, and a thousandth if none is positive. */
  lemma FloorIs(start: Vec)
    ensures (forall r <- start :: r <= 0.0) ==> Floor(start) == 0.001
    ensures forall r <- start | r > 0.0 :: Floor(start) * 1000.0 <= r
    ensures (exists r <- start :: r > 0.0) ==> Floor(start) * 1000.0 in start
  {
    var positive := Positive(start);
    if positive == [] {
      assert forall r :: r in start && r > 0.0 ==> r in positive;
    } else {
      var least := positive[Selection.FirstLeast(positive)];
      assert least in positive && Floor(start) * 1000.0 == least;
    }
  }

  function Positive(v: Vec): (p: Vec)
    ensures forall i :: 0 <= i < |p| ==> p[i] > 0.0
    ensures forall r :: r in p <==> r in v && r > 0.0
  {
    if v == [] then [] else (if v[0] > 0.0 then [v[0]] else []) + Positive(v[1..])
  }

  function Forward(n: nat): (order: seq<nat>)
    ensures (forall j | 0 <= j < n :: j in order) && forall j <- order :: j < n
  {
    if n == 0 then [] else Forward(n - 1) + [n - 1]
  }

  function Backward(n: nat): (order: seq<nat>)
    ensures (forall j | 0 <= j < n :: j in order) && forall j <- order :: j < n
  {
    if n == 0 then [] else [n - 1] + Backward(n - 1)
  }

  lemma ScalingKeepsLoss(problem: Problem, beta: Vec, c: real)
    requires Proper(problem, |beta|) && c > 0.0
    ensures Loss(problem, Selection.Scaled(c, beta)) == Loss(problem, beta)
  {
    Selection.ScalingKeepsReport(problem.candidates, problem.rows, beta, c);
  }

  lemma ScalingKeepsSign(v: Vec, c: real)
    requires RealVectors.NonNegative(v) && c > 0.0
    ensures RealVectors.NonNegative(Selection.Scaled(c, v))
  {
  }

  /** Six searches, from the start scaled by 1, 1/2 and 2, in both orders of the coefficients; the
      first of the best is returned.  It is no worse than the start, it keeps coefficients
      non-negative, and it is one that no single trial improves by more than a step, or else every
      sweep gained more than a step. */
  method FitRegret(problem: Problem, start: Vec, sweeps: nat) returns (beta: Vec)
    requires Proper(problem, |start|)
    ensures |beta| == |start| && Loss(problem, beta) <= Loss(problem, start)
    ensures Settled(problem, beta, Floor(start))
      || Loss(problem, beta) <= Loss(problem, start) - sweeps as real * 0.000000001
    ensures RealVectors.NonNegative(start) ==> RealVectors.NonNegative(beta)
  {
    hide Loss, Settled, Floor, Proper, Forward, Backward;
    var floor := Floor(start);
    var scales, orders := [1.0, 0.5, 2.0], [Forward(|start|), Backward(|start|)];
    var best := 0.0;
    beta := start;
    var found := false;
    for i := 0 to |scales|
      invariant found <==> i > 0
      invariant |beta| == |start| && Proper(problem, |beta|) && Proper(problem, |start|)
      invariant found ==> Good(problem, start, sweeps, floor, best, beta)
    {
      var scaled := Selection.Scaled(scales[i], start);
      ScalingKeepsLoss(problem, start, scales[i]);
      if RealVectors.NonNegative(start) {
        ScalingKeepsSign(start, scales[i]);
      }
      for k := 0 to |orders|
        invariant found <==> i > 0 || k > 0
        invariant |beta| == |start|
        invariant found ==> Good(problem, start, sweeps, floor, best, beta)
      {
        var value, next := Search(problem, scaled, orders[k], sweeps, floor);
        if !found || value < best {
          best, beta, found := value, next, true;
        }
      }
    }
  }

  ghost predicate Good(problem: Problem, start: Vec, sweeps: nat, floor: real, best: real, beta: Vec)
    requires |beta| == |start| && Proper(problem, |start|)
  {
    && best == Loss(problem, beta) && best <= Loss(problem, start)
    && (Settled(problem, beta, floor) || best <= Loss(problem, start) - sweeps as real * 0.000000001)
    && (RealVectors.NonNegative(start) ==> RealVectors.NonNegative(beta))
  }

  // --------------------------------------------------------- the integer table

  /** To the nearest integer, halves to the even one. */
  function Round(x: real): (n: int)
    ensures -0.5 <= n as real - x <= 0.5
    ensures n as real - x in {0.5, -0.5} ==> n % 2 == 0
    ensures x >= 0.0 ==> n >= 0
  {
    var below := x.Floor;
    var part := x - below as real;
    if part < 0.5 || (part == 0.5 && below % 2 == 0) then below else below + 1
  }

  /** The coefficients that a table in thousandths stands for. */
  function Coefficients(table: seq<int>): (beta: Vec)
    ensures |beta| == |table| && forall j :: 0 <= j < |table| ==> beta[j] * 1000.0 == table[j] as real
  {
    seq(|table|, j requires 0 <= j < |table| => table[j] as real / 1000.0)
  }

  function Rounded(beta: Vec): (table: seq<int>)
    ensures |table| == |beta|
    ensures forall j :: 0 <= j < |beta| ==> -0.5 <= table[j] as real - beta[j] * 1000.0 <= 0.5
  {
    seq(|beta|, j requires 0 <= j < |beta| => Round(beta[j] * 1000.0))
  }

  function TableLoss(problem: Problem, table: seq<int>): real
    requires Proper(problem, |table|)
  {
    Loss(problem, Coefficients(table))
  }

  /** It is the loss of the coefficients of which the table holds the thousandfold. */
  lemma TableLossIs(problem: Problem, table: seq<int>, beta: Vec)
    requires Proper(problem, |table|) && |beta| == |table|
    requires forall j :: 0 <= j < |table| ==> beta[j] * 1000.0 == table[j] as real
    ensures TableLoss(problem, table) == Loss(problem, beta)
  {
    assert beta == Coefficients(table);
  }

  function AtLeastZero(n: int): nat {
    if n >= 0 then n else 0
  }

  predicate Ascending(s: seq<int>) {
    forall i, k :: 0 <= i < k < |s| ==> s[i] < s[k]
  }

  function Insert(x: int, s: seq<int>): (r: seq<int>)
    requires Ascending(s)
    ensures Ascending(r) && forall n :: n in r <==> n == x || n in s
  {
    if s == [] || x < s[0] then
      assert forall n <- s :: n > x;
      ConsAscends(x, s);
      [x] + s
    else if x == s[0] then s
    else
      var rest := Insert(x, s[1..]);
      assert forall n <- rest :: n > s[0];
      ConsAscends(s[0], rest);
      [s[0]] + rest
  }

  lemma ConsAscends(x: int, s: seq<int>)
    requires Ascending(s) && forall n <- s :: n > x
    ensures Ascending([x] + s)
  {
    var all := [x] + s;
    forall i, k | 0 <= i < k < |all| ensures all[i] < all[k] {
      assert i > 0 ==> all[i] == s[i - 1];
      assert all[k] == s[k - 1] && s[k - 1] in s;
    }
  }

  /** The distinct items in ascending order. */
  function Sorted(items: seq<int>): (r: seq<int>)
    ensures Ascending(r) && forall n :: n in r <==> n in items
  {
    if items == [] then [] else Insert(items[0], Sorted(items[1..]))
  }

  function Neighbours(current: int): (trials: seq<int>) {
    Sorted([current + 1, AtLeastZero(current - 1), current + 2, AtLeastZero(current - 2), 0]
           + if current > 0 then
               [Round(current as real * 0.5), Round(current as real * 0.9), Round(current as real * 1.1),
                Round(current as real * 2.0)]
             else [1, 10, 100, 1000])
  }

  /** One or two more or less, zero, four rounded multiples of a positive entry, and four powers of ten in place
      of any other; never less than zero. */
  ghost predicate NextTo(current: int, trial: int) {
    && trial >= 0
    && (|| trial == 0 || trial == current + 1 || trial == current + 2 || trial == current - 1 || trial == current - 2
        || (current > 0 && (trial == Round(current as real * 0.5) || trial == Round(current as real * 0.9)
                            || trial == Round(current as real * 1.1) || trial == Round(current as real * 2.0)))
        || (current <= 0 && trial in {1, 10, 100, 1000}))
  }

  lemma InEither(trial: int, near: seq<int>, far: seq<int>)
    ensures trial in Sorted(near + far) <==> trial in near || trial in far
  {
  }

  lemma InFive(trial: int, a: int, b: int, c: int, d: int, e: int)
    ensures trial in [a, b, c, d, e] <==> trial == a || trial == b || trial == c || trial == d || trial == e
  {
  }

  lemma InFour(trial: int, a: int, b: int, c: int, d: int)
    ensures trial in [a, b, c, d] <==> trial == a || trial == b || trial == c || trial == d
  {
  }

  lemma NeighboursAreNext(current: int, trial: int)
    ensures NextTo(current, trial) <==> trial >= 0 && trial in Neighbours(current)
  {
    var c := current as real;
    var half, less, more, twice := Round(c * 0.5), Round(c * 0.9), Round(c * 1.1), Round(c * 2.0);
    var below, under := AtLeastZero(current - 1), AtLeastZero(current - 2);
    var near := [current + 1, below, current + 2, under, 0];
    var far := if current > 0 then [half, less, more, twice] else [1, 10, 100, 1000];
    InEither(trial, near, far);
    InFive(trial, current + 1, below, current + 2, under, 0);
    InFour(trial, half, less, more, twice);
    InFour(trial, 1, 10, 100, 1000);
    assert Neighbours(current) == Sorted(near + far);
    hide Neighbours, Round, Sorted;
  }

  ghost predicate TableSettledAt(problem: Problem, table: seq<int>, j: nat)
    requires Proper(problem, |table|) && j < |table|
  {
    forall trial | NextTo(table[j], trial) ::
      TableLoss(problem, table[j := trial]) >= TableLoss(problem, table) - 0.000000001
  }

  ghost predicate TableSettled(problem: Problem, table: seq<int>)
    requires Proper(problem, |table|)
  {
    forall j | 0 <= j < |table| :: TableSettledAt(problem, table, j)
  }

  ghost predicate NoNegative(table: seq<int>) {
    forall j :: 0 <= j < |table| ==> table[j] >= 0
  }

  /** All neighbours of one entry, in ascending order. */
  method TryEntry(problem: Problem, start: seq<int>, loss: real, j: nat)
    returns (best: real, table: seq<int>, improved: bool)
    requires Proper(problem, |start|) && j < |start| && loss == TableLoss(problem, start)
    ensures |table| == |start| && best == TableLoss(problem, table)
    ensures if improved then best < loss - 0.000000001 else table == start && TableSettledAt(problem, start, j)
    ensures NoNegative(start) ==> NoNegative(table)
  {
    hide TableLoss, Neighbours;
    best, table, improved := loss, start, false;
    var current := start[j];
    var trials := Neighbours(current);
    for k := 0 to |trials|
      invariant |table| == |start| && table == start[j := table[j]] && best == TableLoss(problem, table)
      invariant if improved then best < loss - 0.000000001
                else table == start && forall i | 0 <= i < k && trials[i] >= 0 ::
                                         TableLoss(problem, start[j := trials[i]]) >= loss - 0.000000001
      invariant table[j] == start[j] || table[j] >= 0
    {
      var trial := trials[k];
      if trial == current || trial < 0 {
        assert trial == current ==> start[j := trial] == start;
        continue;
      }
      var changed := table[j := trial];
      assert changed == start[j := trial];
      var value := TableLoss(problem, changed);
      if value < best - STEP {
        best, table, improved := value, changed, true;
      }
    }
    if !improved {
      forall trial | NextTo(current, trial) ensures TableLoss(problem, start[j := trial]) >= loss - 0.000000001 {
        NeighboursAreNext(current, trial);
        var k :| 0 <= k < |trials| && trials[k] == trial;
      }
    }
  }

  /** The production table.  A rounded table no worse than the coefficients is kept as it is; any
      other is searched from there.  The result never loses to plain rounding, has no negative
      entry if the coefficients have none, and a searched table is one that no neighbour improves
      by more than a step, or else every sweep gained more than a step. */
  method Integerize(problem: Problem, beta: Vec, sweeps: nat) returns (table: seq<int>)
    requires Proper(problem, |beta|)
    ensures |table| == |beta| && TableLoss(problem, table) <= TableLoss(problem, Rounded(beta))
    ensures TableLoss(problem, Rounded(beta)) <= Loss(problem, beta) + 0.000000001 ==> table == Rounded(beta)
    ensures TableLoss(problem, Rounded(beta)) > Loss(problem, beta) + 0.000000001 ==>
      TableSettled(problem, table)
      || TableLoss(problem, table) <= TableLoss(problem, Rounded(beta)) - sweeps as real * 0.000000001
    ensures RealVectors.NonNegative(beta) ==> NoNegative(table)
  {
    hide Loss, TableLoss, Round, TableSettledAt;
    table := Rounded(beta);
    var best := TableLoss(problem, table);
    if best <= Loss(problem, beta) + STEP {
      return;
    }
    for sweep := 0 to sweeps
      invariant |table| == |beta| && best == TableLoss(problem, table)
      invariant best <= TableLoss(problem, Rounded(beta)) - sweep as real * 0.000000001
      invariant RealVectors.NonNegative(beta) ==> NoNegative(table)
    {
      var improved := false;
      ghost var before, was := best, table;
      for j := 0 to |table|
        invariant |table| == |beta| && best == TableLoss(problem, table)
        invariant if improved then best < before - 0.000000001
                  else best == before && table == was && forall i | 0 <= i < j :: TableSettledAt(problem, was, i)
        invariant RealVectors.NonNegative(beta) ==> NoNegative(table)
      {
        var value, next, better := TryEntry(problem, table, best, j);
        best, table, improved := value, next, improved || better;
      }
      if !improved {
        return;
      }
    }
  }
}
