/** The calibration driver as one program run by every rank.  Between collectives the ranks
    work at their own pace and see their own failures and compile statuses; a collective
    completes only when every rank has reached the same one. */
module Lockstep {

  const MAX_WARMUPS: nat := 8
  const MIN_WARMUPS: nat := 2

  /** A candidate layout under a planner variant. */
  datatype Arm = Arm(name: string, variant: string)

  /** What is calibrated: the candidate labels, the variants and the number of measured rounds. */
  datatype Plan = Plan(labels: seq<string>, variants: seq<string>, repeat: nat)

  /** Where the loops stand. */
  datatype Phase =
    | Warm(candidate: nat, variant: nat, attempt: nat)
    | Measured(round: nat, position: nat)
    | Done

  /** Inside one run: the forward pass, then the three collectives. */
  datatype Point = Running | AtFailures | AtTimes | AtStatuses

  /** What only this rank knows about its own run. */
  datatype Local = Local(failed: bool, ms: real, statuses: set<string>)

  /** The result of one run, as every rank reports it. */
  datatype Result = AdmissionFailed | Passed(ms: real, statuses: set<string>)

  datatype Row = Row(phase: Phase, arm: Arm, result: Result)

  datatype Rank = Rank(phase: Phase, point: Point, live: seq<Arm>, rows: seq<Row>, local: Local, slowest: real)

  /** One rank finishes its own forward pass, or all ranks meet in a collective. */
  datatype Action = Forward(rank: nat, local: Local) | Meet

  ghost predicate Proper(p: Plan) {
    p.variants != []
  }

  function Start(p: Plan): Rank {
    Rank(if p.labels == [] then Done else Warm(0, 0, 0), Running, [], [], Local(false, 0.0, {}), 0.0)
  }

  /** Warm-up may stop once a second attempt, or a later one, compiled nothing on any rank. */
  predicate WarmupComplete(attempt: nat, statuses: set<string>) {
    attempt + 1 >= MIN_WARMUPS && statuses == {"none"}
  }

  /** The order of one measured round: the live arms, rotated by the round. */
  function Order(live: seq<Arm>, round: nat): (order: seq<Arm>)
    ensures |order| == |live|
  {
    var k := round % (if live == [] then 1 else |live|);
    live[k..] + live[..k]
  }

  function Current(p: Plan, r: Rank): Arm
    requires Legal(p, r) && !r.phase.Done?
  {
    match r.phase
    case Warm(c, v, _) => Arm(p.labels[c], p.variants[v])
    case Measured(round, position) => Order(r.live, round)[position]
  }

  predicate Legal(p: Plan, r: Rank) {
    match r.phase
    case Warm(c, v, a) => c < |p.labels| && v < |p.variants| && a < MAX_WARMUPS
    case Measured(round, position) => round < p.repeat && position < |r.live|
    case Done => true
  }

  function NextArm(p: Plan, c: nat, v: nat, live: seq<Arm>): Phase {
    if v + 1 < |p.variants| then Warm(c, v + 1, 0)
    else if c + 1 < |p.labels| then Warm(c + 1, 0, 0)
    else if p.repeat > 0 && live != [] then Measured(0, 0)
    else Done
  }

  /** A finished run moves the loops on: by the shared result alone. */
  function Finish(p: Plan, r: Rank, result: Result): Rank
    requires Legal(p, r) && !r.phase.Done?
  {
    var arm := Current(p, r);
    var after := r.(rows := r.rows + [Row(r.phase, arm, result)], point := Running);
    match r.phase
    case Warm(c, v, a) =>
      if result.AdmissionFailed? then after.(phase := NextArm(p, c, v, r.live))
      else if WarmupComplete(a, result.statuses) then
        after.(live := r.live + [arm], phase := NextArm(p, c, v, r.live + [arm]))
      else if a + 1 < MAX_WARMUPS then after.(phase := Warm(c, v, a + 1))
      else after.(phase := NextArm(p, c, v, r.live))
    case Measured(round, position) =>
      after.(phase :=
        if position + 1 < |r.live| then Measured(round, position + 1)
        else if round + 1 < p.repeat then Measured(round + 1, 0)
        else Done)
  }

  // --------------------------------------------------------------- the world

  predicate AnyFailed(world: seq<Rank>) {
    exists r :: 0 <= r < |world| && world[r].local.failed
  }

  function Slowest(world: seq<Rank>): real
    requires |world| > 0
  {
    if |world| == 1 then world[0].local.ms
    else if world[0].local.ms >= Slowest(world[1..]) then world[0].local.ms else Slowest(world[1..])
  }

  /** The statuses of every rank together. */
  function Gathered(world: seq<Rank>): set<string> {
    set r, s | 0 <= r < |world| && s in world[r].local.statuses :: s
  }

  /** All ranks stand at the same collective. */
  predicate Assembled(world: seq<Rank>, point: Point) {
    point != Running && forall r :: 0 <= r < |world| ==> world[r].point == point && !world[r].phase.Done?
  }

  predicate Enabled(p: Plan, world: seq<Rank>, a: Action) {
    match a
    case Forward(r, _) => r < |world| && world[r].point == Running && !world[r].phase.Done?
    case Meet => |world| > 0 && Assembled(world, world[0].point)
  }

  function Act(p: Plan, world: seq<Rank>, a: Action): (next: seq<Rank>)
    requires Enabled(p, world, a) && forall r :: 0 <= r < |world| ==> Legal(p, world[r])
    ensures |next| == |world|
  {
    match a
    case Forward(r, local) => world[r := world[r].(local := local, point := AtFailures)]
    case Meet =>
      match world[0].point
      case AtFailures =>
        if AnyFailed(world)
        then seq(|world|, r requires 0 <= r < |world| => Finish(p, world[r], AdmissionFailed))
        else seq(|world|, r requires 0 <= r < |world| => world[r].(point := AtTimes))
      case AtTimes =>
        seq(|world|, r requires 0 <= r < |world| => world[r].(point := AtStatuses, slowest := Slowest(world)))
      case AtStatuses =>
        seq(|world|, r requires 0 <= r < |world| => Finish(p, world[r], Passed(world[r].slowest, Gathered(world))))
  }

  /** Every rank has the same place in the loops, the same live list and the same rows, and
      no rank is ahead in a collective. */
  ghost predicate InStep(p: Plan, world: seq<Rank>) {
    && |world| > 0 && (forall r :: 0 <= r < |world| ==> Legal(p, world[r]))
    && (forall r, s :: 0 <= r < |world| && 0 <= s < |world| ==>
          && world[r].phase == world[s].phase && world[r].live == world[s].live && world[r].rows == world[s].rows
          && world[r].slowest == world[s].slowest
          && (world[r].point == AtTimes ==> world[s].point == AtTimes)
          && (world[r].point == AtStatuses ==> world[s].point == AtStatuses))
    && (world[0].phase.Done? ==> (forall r :: 0 <= r < |world| ==> world[r].point == Running))
  }

  lemma FinishKeepsLegal(p: Plan, r: Rank, result: Result)
    requires Proper(p) && Legal(p, r) && !r.phase.Done?
    ensures Legal(p, Finish(p, r, result))
  {
  }

  lemma FinishAgrees(p: Plan, r: Rank, s: Rank, result: Result)
    requires Legal(p, r) && Legal(p, s) && !r.phase.Done?
    requires r.phase == s.phase && r.live == s.live && r.rows == s.rows
    ensures var x, y := Finish(p, r, result), Finish(p, s, result);
      x.phase == y.phase && x.live == y.live && x.rows == y.rows && x.point == y.point == Running
  {
  }

  /** Every step, whichever ranks are slow and whatever they see locally, keeps the ranks in step. */
  lemma ActKeepsInStep(p: Plan, world: seq<Rank>, a: Action)
    requires Proper(p) && InStep(p, world) && Enabled(p, world, a)
    ensures InStep(p, Act(p, world, a))
  {
    if a.Meet? {
      forall r, result | 0 <= r < |world| ensures Legal(p, Finish(p, world[r], result)) {
        FinishKeepsLegal(p, world[r], result);
      }
      forall r, s, result | 0 <= r < |world| && 0 <= s < |world|
        ensures var x, y := Finish(p, world[r], result), Finish(p, world[s], result);
          x.phase == y.phase && x.live == y.live && x.rows == y.rows && x.point == y.point == Running
          && x.slowest == y.slowest
      {
        FinishAgrees(p, world[r], world[s], result);
      }
      hide Finish, Legal, AnyFailed, Gathered, Slowest;
    }
  }

  /** The time is one of the ranks' and none of them took longer. */
  ghost predicate IsSlowest(world: seq<Rank>, ms: real) {
    (forall rank <- world :: rank.local.ms <= ms) && exists rank <- world :: rank.local.ms == ms
  }

  lemma {:induction false} SlowestIs(world: seq<Rank>)
    requires |world| > 0
    ensures IsSlowest(world, Slowest(world))
  {
    if |world| > 1 {
      SlowestIs(world[1..]);
      assert world == [world[0]] + world[1..];
    }
  }

  /** The run that ends now goes into the rows, with what the ranks have shared. */
  ghost predicate Reports(r: Rank, after: Rank, result: Result) {
    && |after.rows| == |r.rows| + 1 && after.rows[..|r.rows|] == r.rows
    && after.rows[|r.rows|].phase == r.phase && after.rows[|r.rows|].result == result
  }

  /** What the ranks share at a collective: one failure is everybody's, the time is that of the slowest, and the
      statuses are all that any rank has seen. */
  lemma MeetShares(p: Plan, world: seq<Rank>, r: nat) returns (statuses: set<string>)
    requires InStep(p, world) && Enabled(p, world, Meet) && r < |world|
    ensures forall s :: s in statuses <==> exists rank <- world :: s in rank.local.statuses
    ensures var after := Act(p, world, Meet)[r];
      match world[r].point
      case Running => false
      case AtFailures =>
        if exists rank <- world :: rank.local.failed then Reports(world[r], after, AdmissionFailed)
        else after == world[r].(point := AtTimes)
      case AtTimes =>
        IsSlowest(world, after.slowest) && after == world[r].(point := AtStatuses, slowest := after.slowest)
      case AtStatuses => Reports(world[r], after, Passed(world[r].slowest, statuses))
  {
    SlowestIs(world);
    statuses := Gathered(world);
    forall s ensures s in statuses <==> exists rank <- world :: s in rank.local.statuses {
      if rank :| rank in world && s in rank.local.statuses {
        var k :| 0 <= k < |world| && world[k] == rank;
        assert s in world[k].local.statuses;
      }
    }
    hide Slowest, IsSlowest, Gathered, Order, NextArm;
  }

  /** No deadlock: until all are done, some rank can go on, or all stand at the same collective. */
  lemma NeverStuck(p: Plan, world: seq<Rank>)
    requires InStep(p, world) && !world[0].phase.Done?
    ensures Enabled(p, world, Meet)
      || exists r :: 0 <= r < |world| && world[r].point == Running && !world[r].phase.Done?
  {
    if forall r :: 0 <= r < |world| ==> world[r].point != Running {
      assert Assembled(world, world[0].point);
    }
  }

  // ------------------------------------------------------------- termination

  /** At most this many runs are left. */
  function RunsLeft(p: Plan, r: Rank): int {
    match r.phase
    case Warm(c, v, a) =>
      var arms := (|p.labels| - c) * |p.variants| - v;
      arms * MAX_WARMUPS - a + p.repeat * (|r.live| + arms)
    case Measured(round, position) => (p.repeat - round) * |r.live| - position
    case Done => 0
  }

  lemma RunsLeftIsNatural(p: Plan, r: Rank)
    requires Proper(p) && Legal(p, r)
    ensures RunsLeft(p, r) >= 0
    ensures !r.phase.Done? ==> RunsLeft(p, r) > 0
  {
    match r.phase
    case Warm(c, v, a) =>
      ProductGrows(1, |p.labels| - c, |p.variants|);
      ProductGrows(0, p.repeat, |r.live| + (|p.labels| - c) * |p.variants| - v);
    case Measured(round, position) => ProductGrows(1, p.repeat - round, |r.live|);
    case Done =>
  }

  lemma ProductGrows(a: int, b: int, n: int)
    requires a <= b && n >= 0
    ensures a * n <= b * n
  {
    assert (b - a) * n >= 0;
  }

  lemma NextArmShrinks(p: Plan, r: Rank, more: seq<Arm>)
    requires Proper(p) && Legal(p, r) && r.phase.Warm? && |more| <= |r.live| + 1
    ensures RunsLeft(p, r.(phase := NextArm(p, r.phase.candidate, r.phase.variant, more), live := more))
      < RunsLeft(p, r)
  {
    var c, v := r.phase.candidate, r.phase.variant;
    var w, l := |p.variants|, |p.labels|;
    var arms := (l - c) * w - v;
    assert (l - c) * w == (l - (c + 1)) * w + w;
    ProductGrows(0, l - (c + 1), w);
    ProductGrows(|more|, |r.live| + 1, p.repeat);
    ProductGrows(1, arms, p.repeat);
    assert p.repeat * (|r.live| + arms) == |r.live| * p.repeat + arms * p.repeat;
    assert p.repeat * (|more| + (arms - 1)) == |more| * p.repeat + (arms - 1) * p.repeat;
    assert (|r.live| + 1) * p.repeat == |r.live| * p.repeat + p.repeat;
  }

  lemma FinishShrinks(p: Plan, r: Rank, result: Result)
    requires Proper(p) && Legal(p, r) && !r.phase.Done?
    ensures RunsLeft(p, Finish(p, r, result)) < RunsLeft(p, r)
  {
    match r.phase
    case Warm(c, v, a) =>
      NextArmShrinks(p, r, r.live);
      NextArmShrinks(p, r, r.live + [Current(p, r)]);
    case Measured(round, position) =>
      assert (p.repeat - round) * |r.live| == (p.repeat - (round + 1)) * |r.live| + |r.live|;
    case Done =>
  }

  function RunningCount(world: seq<Rank>): (n: nat)
    ensures n <= |world|
  {
    if world == [] then 0 else (if world[0].point == Running then 1 else 0) + RunningCount(world[1..])
  }

  lemma {:induction false} OneFewerRunning(world: seq<Rank>, r: nat, x: Rank)
    requires r < |world| && world[r].point == Running && x.point != Running
    ensures RunningCount(world[r := x]) == RunningCount(world) - 1
  {
    if r == 0 {
      assert world[r := x][1..] == world[1..];
    } else {
      assert world[r := x][1..] == world[1..][r - 1 := x];
      OneFewerRunning(world[1..], r - 1, x);
    }
  }

  /** How far the current run is from its end. */
  function Stage(world: seq<Rank>): nat
    requires |world| > 0
  {
    match world[0].point
    case AtTimes => 2
    case AtStatuses => 1
    case _ => 3 + RunningCount(world)
  }

  /** An upper bound on the steps that are left. */
  function Budget(p: Plan, world: seq<Rank>): int
    requires |world| > 0
  {
    RunsLeft(p, world[0]) * (|world| + 4) + Stage(world)
  }

  lemma ActSpendsBudget(p: Plan, world: seq<Rank>, a: Action)
    requires Proper(p) && InStep(p, world) && Enabled(p, world, a)
    ensures Budget(p, Act(p, world, a)) < Budget(p, world)
  {
    match a
    case Forward(r, local) =>
      var x := world[r].(local := local, point := AtFailures);
      OneFewerRunning(world, r, x);
      assert world[0].point == Running || world[0].point == AtFailures;
    case Meet =>
      var next := Act(p, world, a);
      match world[0].point {
        case AtFailures =>
          if AnyFailed(world) {
            RunEnds(p, world, next, AdmissionFailed);
          }
        case AtTimes =>
        case AtStatuses => RunEnds(p, world, next, Passed(world[0].slowest, Gathered(world)));
        case Running =>
      }
  }

  lemma RunEnds(p: Plan, world: seq<Rank>, next: seq<Rank>, result: Result)
    requires Proper(p) && InStep(p, world) && !world[0].phase.Done? && |next| == |world|
    requires next[0] == Finish(p, world[0], result)
    ensures Budget(p, next) < Budget(p, world)
  {
    FinishShrinks(p, world[0], result);
    hide RunsLeft, Finish, Legal, InStep;
    assert Stage(next) <= |next| + 3 && Stage(world) >= 1;
    LowerDigit(RunsLeft(p, next[0]), RunsLeft(p, world[0]), |world| + 4, Stage(next), Stage(world));
  }

  lemma LowerDigit(a: int, b: int, base: int, x: int, y: int)
    requires a < b && 0 <= x < base && 1 <= y
    ensures a * base + x < b * base + y
  {
    ProductGrows(a + 1, b, base);
  }

  // ------------------------------------------------------- over whole executions

  /** The actions can be taken one after another. */
  ghost predicate Possible(p: Plan, world: seq<Rank>, actions: seq<Action>)
    requires InStep(p, world) && Proper(p)
    decreases |actions|
  {
    actions != [] ==>
      Enabled(p, world, actions[0])
      && (ActKeepsInStep(p, world, actions[0]); Possible(p, Act(p, world, actions[0]), actions[1..]))
  }

  ghost function Execute(p: Plan, world: seq<Rank>, actions: seq<Action>): (final: seq<Rank>)
    requires Proper(p) && InStep(p, world) && Possible(p, world, actions)
    ensures InStep(p, final) && |final| == |world|
    decreases |actions|
  {
    if actions == [] then world
    else
      ActKeepsInStep(p, world, actions[0]);
      Execute(p, Act(p, world, actions[0]), actions[1..])
  }

  lemma {:induction false} ExecutionIsBounded(p: Plan, world: seq<Rank>, actions: seq<Action>)
    requires Proper(p) && InStep(p, world) && Possible(p, world, actions)
    ensures |actions| <= Budget(p, world)
    decreases |actions|
  {
    if actions == [] {
      RunsLeftIsNatural(p, world[0]);
      ProductGrows(0, RunsLeft(p, world[0]), |world| + 4);
    } else {
      ActKeepsInStep(p, world, actions[0]);
      ActSpendsBudget(p, world, actions[0]);
      ExecutionIsBounded(p, Act(p, world, actions[0]), actions[1..]);
    }
  }

  // ------------------------------------------------------ what the ranks report

  /** The arms whose warm-up ended compile-free, as the rows tell it. */
  ghost function Completed(rows: seq<Row>): seq<Arm> {
    if rows == [] then []
    else
      var row, before := rows[|rows| - 1], Completed(rows[..|rows| - 1]);
      if EndsClean(row) then before + [row.arm] else before
  }

  /** A second attempt or a later one, which passed and compiled nothing on any rank. */
  ghost predicate EndsClean(row: Row) {
    row.phase.Warm? && row.phase.attempt >= 1 && row.result.Passed? && row.result.statuses == {"none"}
  }

  /** An arm warms up until it is refused or clean, eight times at most; then comes the next variant, the next
      candidate and, if any arm is live, round after round of the live arms. */
  ghost predicate NextIs(p: Plan, live: seq<Arm>, row: Row, next: Phase) {
    match row.phase
    case Warm(c, v, a) =>
      if !row.result.AdmissionFailed? && !EndsClean(row) && a < 7 then next == Warm(c, v, a + 1)
      else if v + 1 < |p.variants| then next == Warm(c, v + 1, 0)
      else if c + 1 < |p.labels| then next == Warm(c + 1, 0, 0)
      else next == if p.repeat > 0 && live != [] then Measured(0, 0) else Done
    case Measured(round, position) =>
      if position + 1 < |live| then next == Measured(round, position + 1)
      else next == if round + 1 < p.repeat then Measured(round + 1, 0) else Done
    case Done => false
  }

  /** A row is of the arm whose turn it was; in each round the first arm is the one after the last round's. */
  ghost predicate ArmIs(p: Plan, live: seq<Arm>, row: Row) {
    match row.phase
    case Warm(c, v, _) => c < |p.labels| && v < |p.variants| && row.arm == Arm(p.labels[c], p.variants[v])
    case Measured(round, position) => |live| > 0 && row.arm == live[(round + position) % |live|]
    case Done => false
  }

  ghost predicate RowIs(p: Plan, rows: seq<Row>, live: seq<Arm>, next: Phase, i: nat)
    requires i < |rows|
  {
    ArmIs(p, live, rows[i]) && NextIs(p, live, rows[i], if i + 1 < |rows| then rows[i + 1].phase else next)
  }

  /** The rows are those of the loops, from the first arm of the plan to where they stand. */
  ghost predicate Course(p: Plan, r: Rank) {
    && (if r.rows == [] then r.phase else r.rows[0].phase) == (if p.labels == [] then Done else Warm(0, 0, 0))
    && (r.phase.Warm? ==> forall i :: 0 <= i < |r.rows| ==> r.rows[i].phase.Warm?)
    && forall i | 0 <= i < |r.rows| :: RowIs(p, r.rows, r.live, r.phase, i)
  }

  /** The arms of the measured rows, in order. */
  ghost function MeasuredArms(rows: seq<Row>): seq<Arm> {
    if rows == [] then []
    else
      var row, before := rows[|rows| - 1], MeasuredArms(rows[..|rows| - 1]);
      if row.phase.Measured? then before + [row.arm] else before
  }

  /** The orders of the first rounds, one after another. */
  ghost function Rounds(live: seq<Arm>, n: nat): seq<Arm> {
    if n == 0 then [] else Rounds(live, n - 1) + Order(live, n - 1)
  }

  /** The live list is exactly what the shared rows justify, and the measured rows so far are
      whole rotated rounds and the start of the current one. */
  ghost predicate Tallied(p: Plan, r: Rank) {
    && r.live == Completed(r.rows)
    && match r.phase
       case Warm(_, _, _) => MeasuredArms(r.rows) == []
       case Measured(round, position) =>
         position < |r.live| && MeasuredArms(r.rows) == Rounds(r.live, round) + Order(r.live, round)[..position]
       case Done => MeasuredArms(r.rows) == Rounds(r.live, p.repeat)
  }

  ghost predicate Accounted(p: Plan, r: Rank) {
    Tallied(p, r) && Course(p, r)
  }

  lemma {:induction false} NoRounds(n: nat)
    ensures Rounds([], n) == []
  {
    if n > 0 {
      NoRounds(n - 1);
    }
  }

  lemma OneMoreRow(rows: seq<Row>, row: Row)
    ensures Completed(rows + [row]) ==
      if EndsClean(row) then Completed(rows) + [row.arm] else Completed(rows)
    ensures MeasuredArms(rows + [row]) ==
      if row.phase.Measured? then MeasuredArms(rows) + [row.arm] else MeasuredArms(rows)
  {
    assert (rows + [row])[..|rows + [row]| - 1] == rows;
  }

  lemma NoRoundsYet(p: Plan, c: nat, v: nat, live: seq<Arm>)
    ensures match NextArm(p, c, v, live)
      case Warm(_, _, _) => true
      case Measured(round, position) => round == position == 0 && |live| > 0 && Order(live, 0)[..0] == []
      case Done => Rounds(live, p.repeat) == []
  {
    NoRounds(p.repeat);
  }

  lemma CleanIs(phase: Phase, arm: Arm, result: Result)
    ensures EndsClean(Row(phase, arm, result)) <==>
      phase.Warm? && result.Passed? && WarmupComplete(phase.attempt, result.statuses)
  {
  }

  lemma NextArmIs(p: Plan, row: Row, live: seq<Arm>)
    requires row.phase.Warm? && (row.result.AdmissionFailed? || EndsClean(row) || row.phase.attempt >= 7)
    ensures NextIs(p, live, row, NextArm(p, row.phase.candidate, row.phase.variant, live))
  {
  }

  lemma RotationIs(live: seq<Arm>, round: nat, position: nat)
    requires position < |live|
    ensures Order(live, round)[position] == live[(round + position) % |live|]
  {
    var n := |live|;
    var k := round % n;
    var whole := round / n;
    assert round + position == whole * n + (k + position);
    if k + position < n {
      Remainder(whole, n, k + position);
    } else {
      assert whole * n + n == (whole + 1) * n;
      Remainder(whole + 1, n, k + position - n);
    }
  }

  lemma Remainder(q: nat, n: nat, rest: nat)
    requires rest < n
    ensures (q * n + rest) % n == rest
  {
    var x := q * n + rest;
    OneQuotient(x / n, q, n, x % n, rest);
  }

  lemma OneQuotient(a: int, b: int, n: int, x: int, y: int)
    requires a * n + x == b * n + y && 0 <= x < n && 0 <= y < n
    ensures a == b && x == y
  {
    if a < b {
      ProductGrows(a + 1, b, n);
    } else if b < a {
      ProductGrows(b + 1, a, n);
    }
  }

  lemma FinishedRow(p: Plan, r: Rank, result: Result)
    requires Proper(p) && Legal(p, r) && !r.phase.Done?
    ensures var row, after := Row(r.phase, Current(p, r), result), Finish(p, r, result);
      && ArmIs(p, r.live, row) && ArmIs(p, after.live, row) && NextIs(p, after.live, row, after.phase)
      && after.rows == r.rows + [row] && (after.phase.Warm? ==> r.phase.Warm?)
      && (!r.phase.Warm? ==> after.live == r.live)
  {
    var row, after := Row(r.phase, Current(p, r), result), Finish(p, r, result);
    match r.phase {
      case Warm(c, v, a) =>
        if result.AdmissionFailed? || EndsClean(row) || a >= 7 {
          NextArmIs(p, row, after.live);
          hide NextIs, NextArm;
        }
      case Measured(round, position) => RotationIs(r.live, round, position);
    }
    hide Order;
  }

  lemma FinishFollows(p: Plan, r: Rank, result: Result)
    requires Proper(p) && Legal(p, r) && !r.phase.Done? && Course(p, r)
    ensures Course(p, Finish(p, r, result))
  {
    var row, after := Row(r.phase, Current(p, r), result), Finish(p, r, result);
    FinishedRow(p, r, result);
    hide Finish, Current;
    forall i | 0 <= i < |after.rows| ensures RowIs(p, after.rows, after.live, after.phase, i) {
      if i < |r.rows| {
        assert RowIs(p, r.rows, r.live, r.phase, i);
      }
    }
    hide RowIs;
  }

  lemma WarmIsTallied(p: Plan, r: Rank, result: Result)
    requires Proper(p) && Legal(p, r) && r.phase.Warm? && Tallied(p, r)
    ensures Tallied(p, Finish(p, r, result))
  {
    var arm := Current(p, r);
    OneMoreRow(r.rows, Row(r.phase, arm, result));
    NoRoundsYet(p, r.phase.candidate, r.phase.variant, r.live);
    NoRoundsYet(p, r.phase.candidate, r.phase.variant, r.live + [arm]);
    CleanIs(r.phase, arm, result);
    hide Completed, MeasuredArms, Order, NextArm, WarmupComplete, EndsClean;
  }

  lemma MeasuredIsTallied(p: Plan, r: Rank, result: Result)
    requires Proper(p) && Legal(p, r) && r.phase.Measured? && Tallied(p, r)
    ensures Tallied(p, Finish(p, r, result))
  {
    hide Completed, MeasuredArms, Order, Rounds;
    var o, position := Order(r.live, r.phase.round), r.phase.position;
    OneMoreRow(r.rows, Row(r.phase, o[position], result));
    NextInRounds(r.live, r.phase.round, position);
  }

  lemma NextInRounds(live: seq<Arm>, round: nat, position: nat)
    requires position < |live|
    ensures var o := Order(live, round);
      Rounds(live, round) + o[..position] + [o[position]] ==
        if position + 1 < |live| then Rounds(live, round) + o[..position + 1]
        else Rounds(live, round + 1)
    ensures Rounds(live, round + 1) + Order(live, round + 1)[..0] == Rounds(live, round + 1)
  {
    var o := Order(live, round);
    assert Rounds(live, round + 1) == Rounds(live, round) + o;
    hide Order, Rounds;
    assert o[..position] + [o[position]] == o[..position + 1];
    if position + 1 == |live| {
      assert o[..position + 1] == o;
    }
  }

  lemma FinishIsAccounted(p: Plan, r: Rank, result: Result)
    requires Proper(p) && Legal(p, r) && !r.phase.Done? && Accounted(p, r)
    ensures Accounted(p, Finish(p, r, result))
  {
    FinishFollows(p, r, result);
    hide Course;
    if r.phase.Warm? {
      WarmIsTallied(p, r, result);
    } else {
      MeasuredIsTallied(p, r, result);
    }
  }

  ghost predicate AllAccounted(p: Plan, world: seq<Rank>) {
    forall r :: 0 <= r < |world| ==> Accounted(p, world[r])
  }

  lemma ActIsAccounted(p: Plan, world: seq<Rank>, a: Action)
    requires Proper(p) && InStep(p, world) && Enabled(p, world, a) && AllAccounted(p, world)
    ensures AllAccounted(p, Act(p, world, a))
  {
    forall r, result | 0 <= r < |world| && !world[r].phase.Done? ensures Accounted(p, Finish(p, world[r], result)) {
      FinishIsAccounted(p, world[r], result);
    }
    hide Finish, Tallied, Course;
  }

  lemma {:induction false} ExecutionIsAccounted(p: Plan, world: seq<Rank>, actions: seq<Action>)
    requires Proper(p) && InStep(p, world) && Possible(p, world, actions) && AllAccounted(p, world)
    ensures AllAccounted(p, Execute(p, world, actions))
    decreases |actions|
  {
    if actions != [] {
      ActKeepsInStep(p, world, actions[0]);
      ActIsAccounted(p, world, actions[0]);
      ExecutionIsAccounted(p, Act(p, world, actions[0]), actions[1..]);
    }
  }

  function StartAll(p: Plan, n: nat): seq<Rank> {
    seq(n, _ => Start(p))
  }

  lemma StartsInStep(p: Plan, n: nat)
    requires Proper(p) && n > 0
    ensures InStep(p, StartAll(p, n)) && AllAccounted(p, StartAll(p, n))
  {
    NoRounds(p.repeat);
  }

  /** The lockstep theorem.  Whatever the ranks see locally and however their work interleaves,
      an execution is bounded; while it is not over some step is possible; and at every moment all
      ranks have the same place, the same rows and the same live list, which is the one that the
      shared compile statuses justify. */
  lemma RanksStayInStep(p: Plan, n: nat, actions: seq<Action>)
    requires Proper(p) && n > 0 && InStep(p, StartAll(p, n)) && Possible(p, StartAll(p, n), actions)
    ensures |actions| <= Budget(p, StartAll(p, n))
    ensures var world := Execute(p, StartAll(p, n), actions);
      && (forall r, s :: 0 <= r < n && 0 <= s < n ==>
            world[r].phase == world[s].phase && world[r].live == world[s].live && world[r].rows == world[s].rows)
      && (forall r :: 0 <= r < n ==> world[r].live == Completed(world[r].rows) && Course(p, world[r]))
      && (world[0].phase.Done? ==> (forall r :: 0 <= r < n ==>
            MeasuredArms(world[r].rows) == Rounds(world[r].live, p.repeat)))
      && (!world[0].phase.Done? ==>
            (Enabled(p, world, Meet)
            || exists r :: 0 <= r < n && world[r].point == Running && !world[r].phase.Done?))
  {
    StartsInStep(p, n);
    ExecutionIsBounded(p, StartAll(p, n), actions);
    ExecutionIsAccounted(p, StartAll(p, n), actions);
    var world := Execute(p, StartAll(p, n), actions);
    if !world[0].phase.Done? {
      NeverStuck(p, world);
    }
  }

  /** Why the statuses are gathered before they are judged: two ranks that judged different
      statuses would stay together exactly when both or neither would stop warming up. */
  lemma TogetherIffSameVerdict(p: Plan, r: Rank, ms: real, here: set<string>, there: set<string>)
    requires Legal(p, r) && r.phase.Warm?
    ensures var x, y := Finish(p, r, Passed(ms, here)), Finish(p, r, Passed(ms, there));
      (x.phase == y.phase && x.live == y.live) ==
        (r.phase.attempt == 0 || (here == {"none"} <==> there == {"none"}))
  {
    assert |r.live + [Current(p, r)]| == |r.live| + 1;
  }

  ghost function Count(arms: seq<Arm>, arm: Arm): nat {
    if arms == [] then 0 else (if arms[0] == arm then 1 else 0) + Count(arms[1..], arm)
  }

  lemma {:induction false} CountAdds(a: seq<Arm>, b: seq<Arm>, arm: Arm)
    ensures Count(a + b, arm) == Count(a, arm) + Count(b, arm)
  {
    if a == [] {
      assert a + b == b;
    } else {
      assert (a + b)[1..] == a[1..] + b;
      CountAdds(a[1..], b, arm);
    }
  }

  /** Rotation leaves no arm out: every live arm is measured once in every round. */
  lemma {:induction false} EveryArmEveryRound(live: seq<Arm>, n: nat, arm: Arm)
    ensures Count(Rounds(live, n), arm) == n * Count(live, arm)
  {
    if n > 0 {
      hide Count, Order;
      EveryArmEveryRound(live, n - 1, arm);
      CountAdds(Rounds(live, n - 1), Order(live, n - 1), arm);
      RotationCounts(live, n - 1, arm);
      Times(n, Count(live, arm));
    }
  }

  lemma Times(n: nat, k: nat)
    requires n > 0
    ensures n * k == (n - 1) * k + k
  {
  }

  lemma RotationCounts(live: seq<Arm>, round: nat, arm: Arm)
    ensures Count(Order(live, round), arm) == Count(live, arm)
  {
    var k := round % (if live == [] then 1 else |live|);
    CountAdds(live[k..], live[..k], arm);
    CountAdds(live[..k], live[k..], arm);
    assert live == live[..k] + live[k..];
  }
}
