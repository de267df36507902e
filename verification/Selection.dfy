/** Scoring a cost model by the layouts it would select: regret per cell and ordered pairs. */
module Selection {
  import RealVectors
  import opened Sequences

  type Vec = RealVectors.Vec

  /** One measured layout of a cell. */
  datatype Candidate = Candidate(cell: string, tag: string, ms: real, spread: real)

  /** What `evaluate` reports: per cell, in order of first appearance, the selected and the
      fastest candidate, the regret and the lead of the fastest; and the pairs over all cells. */
  datatype CellReport = CellReport(cell: string, selected: nat, best: nat, regret: real, lead: real)
  datatype Report = Report(cells: seq<CellReport>, pairs: nat, correct: nat, misses: seq<string>)

  const NOISE_BAND: real := 3.0
  const CLEAR_REGRET: real := 5.0
  const PAIR_WEIGHT: real := 0.05

  ghost predicate Timed(candidates: seq<Candidate>) {
    forall i :: 0 <= i < |candidates| ==> candidates[i].ms > 0.0
  }

  // ------------------------------------------------------------ grouping by cell

  function MembersOf(candidates: seq<Candidate>, cell: string): (members: seq<nat>)
    ensures forall k :: 0 <= k < |members| ==> members[k] < |candidates| && candidates[members[k]].cell == cell
  {
    if candidates == [] then []
    else
      var n := |candidates| - 1;
      MembersOf(candidates[..n], cell) + if candidates[n].cell == cell then [n] else []
  }

  /** The cells, in order of first appearance. */
  function CellsOf(candidates: seq<Candidate>): (cells: seq<string>)
    ensures forall cell :: cell in cells <==> MembersOf(candidates, cell) != []
  {
    if candidates == [] then []
    else
      var n := |candidates| - 1;
      var before, cell := CellsOf(candidates[..n]), candidates[n].cell;
      before + if cell in before then [] else [cell]
  }

  /** Every candidate is among the members of its cell. */
  lemma {:induction false} IsMember(candidates: seq<Candidate>, i: nat)
    requires i < |candidates|
    ensures i in MembersOf(candidates, candidates[i].cell)
  {
    if i < |candidates| - 1 {
      IsMember(candidates[..|candidates| - 1], i);
    }
  }

  // -------------------------------------------------------------- minimum, pairs

  /** The place of the first least key. */
  function FirstLeast(keys: seq<real>): (m: nat)
    requires keys != []
    ensures m < |keys| && (forall i :: 0 <= i < |keys| ==> keys[m] <= keys[i])
    ensures forall i :: 0 <= i < m ==> keys[m] < keys[i]
  {
    if |keys| == 1 then 0
    else
      var rest := FirstLeast(keys[1..]);
      assert forall i :: 1 <= i < |keys| ==> keys[i] == keys[1..][i - 1];
      if keys[0] <= keys[1..][rest] then 0 else rest + 1
  }

  predicate Within(candidates: seq<Candidate>, members: seq<nat>) {
    forall k :: 0 <= k < |members| ==> members[k] < |candidates|
  }

  function Times(candidates: seq<Candidate>, members: seq<nat>): seq<real>
    requires Within(candidates, members)
  {
    seq(|members|, k requires 0 <= k < |members| => candidates[members[k]].ms)
  }

  function Scores(predicted: Vec, members: seq<nat>): seq<real>
    requires forall k :: 0 <= k < |members| ==> members[k] < |predicted|
  {
    seq(|members|, k requires 0 <= k < |members| => predicted[members[k]])
  }

  function Percent(ms: real, best: real): real
    requires best > 0.0
  {
    (ms - best) / best * 100.0
  }

  /** The second smallest time, or the only one. */
  function RunnerUp(times: seq<real>): (second: real)
    requires times != []
    ensures second >= times[FirstLeast(times)]
  {
    var m := FirstLeast(times);
    var others := Without(times, m);
    if others == [] then times[m] else others[FirstLeast(others)]
  }

  /** It is the least of the times but the first least. */
  lemma RunnerUpIsSecond(times: seq<real>)
    requires |times| > 1
    ensures forall i :: 0 <= i < |times| && i != FirstLeast(times) ==> RunnerUp(times) <= times[i]
    ensures exists i :: 0 <= i < |times| && i != FirstLeast(times) && times[i] == RunnerUp(times)
  {
    var m := FirstLeast(times);
    LeastOfOthers(times, m, FirstLeast(Without(times, m)));
  }

  lemma LeastOfOthers(times: seq<real>, m: nat, k: nat)
    requires m < |times| && k < |times| - 1
    requires forall j :: 0 <= j < |times| - 1 ==> Without(times, m)[k] <= Without(times, m)[j]
    ensures forall i :: 0 <= i < |times| && i != m ==> Without(times, m)[k] <= times[i]
    ensures exists i :: 0 <= i < |times| && i != m && times[i] == Without(times, m)[k]
  {
    var others := Without(times, m);
    forall i | 0 <= i < |times| && i != m ensures others[k] <= times[i] {
      var j := if i < m then i else i - 1;
      assert others[j] == times[i];
    }
    var w := if k < m then k else k + 1;
    assert others[k] == times[w];
  }

  /** The times of these two differ by more than measurement can blur. */
  predicate Separated(a: Candidate, b: Candidate)
    requires a.ms > 0.0 && b.ms > 0.0
  {
    Percent(if a.ms <= b.ms then b.ms else a.ms, if a.ms <= b.ms then a.ms else b.ms) > 3.0
  }

  predicate InOrder(candidates: seq<Candidate>, predicted: Vec, a: nat, b: nat)
    requires a < |candidates| == |predicted| && b < |candidates|
  {
    (candidates[a].ms < candidates[b].ms) == (predicted[a] < predicted[b])
  }

  datatype Tally = Tally(pairs: nat, correct: nat)

  function Plus(a: Tally, b: Tally): Tally {
    Tally(a.pairs + b.pairs, a.correct + b.correct)
  }

  ghost predicate Scored(candidates: seq<Candidate>, predicted: Vec, members: seq<nat>) {
    |candidates| == |predicted| && Timed(candidates) && Within(candidates, members)
  }

  function TallyOne(candidates: seq<Candidate>, predicted: Vec, a: nat, b: nat): Tally
    requires Scored(candidates, predicted, []) && a < |candidates| && b < |candidates|
  {
    if !Separated(candidates[a], candidates[b]) then Tally(0, 0)
    else Tally(1, if InOrder(candidates, predicted, a, b) then 1 else 0)
  }

  function TallyWith(candidates: seq<Candidate>, predicted: Vec, a: nat, others: seq<nat>): Tally
    requires Scored(candidates, predicted, others) && a < |candidates|
  {
    if others == [] then Tally(0, 0)
    else Plus(TallyOne(candidates, predicted, a, others[0]), TallyWith(candidates, predicted, a, others[1..]))
  }

  function TallyAll(candidates: seq<Candidate>, predicted: Vec, members: seq<nat>): Tally
    requires Scored(candidates, predicted, members)
  {
    if members == [] then Tally(0, 0)
    else Plus(TallyWith(candidates, predicted, members[0], members[1..]), TallyAll(candidates, predicted, members[1..]))
  }

  // -------------------------------------------------------------------- report

  function CellReportOf(candidates: seq<Candidate>, predicted: Vec, cell: string): (one: CellReport)
    requires Scored(candidates, predicted, []) && MembersOf(candidates, cell) != []
    ensures one.cell == cell && one.best in MembersOf(candidates, cell) && one.selected in MembersOf(candidates, cell)
    ensures one.best < |candidates| && one.selected < |candidates|
  {
    var members := MembersOf(candidates, cell);
    var times := Times(candidates, members);
    var best, selected := members[FirstLeast(times)], members[FirstLeast(Scores(predicted, members))];
    var ms := candidates[best].ms;
    CellReport(cell, selected, best, Percent(candidates[selected].ms, ms), Percent(RunnerUp(times), ms))
  }

  predicate ClearMiss(candidates: seq<Candidate>, cell: CellReport)
    requires cell.best < |candidates|
  {
    var spread := candidates[cell.best].spread;
    cell.lead > (if spread >= NOISE_BAND then spread else NOISE_BAND) && cell.regret > CLEAR_REGRET
  }

  /** The report on the first cells. */
  function ReportOn(candidates: seq<Candidate>, predicted: Vec, cells: seq<string>): Report
    requires Scored(candidates, predicted, [])
    requires forall cell <- cells :: MembersOf(candidates, cell) != []
  {
    if cells == [] then Report([], 0, 0, [])
    else
      var cell := cells[|cells| - 1];
      var before := ReportOn(candidates, predicted, cells[..|cells| - 1]);
      var one := CellReportOf(candidates, predicted, cell);
      var tally := TallyAll(candidates, predicted, MembersOf(candidates, cell));
      Report(before.cells + [one], before.pairs + tally.pairs, before.correct + tally.correct,
             before.misses + if ClearMiss(candidates, one) then [cell] else [])
  }

  function ReportOf(candidates: seq<Candidate>, predicted: Vec): Report
    requires Scored(candidates, predicted, [])
  {
    ReportOn(candidates, predicted, CellsOf(candidates))
  }

  function Regret(cells: seq<CellReport>): real {
    if cells == [] then 0.0 else Regret(cells[..|cells| - 1]) + cells[|cells| - 1].regret
  }

  /** Accuracy is the part of the separated pairs that the predictions order as measured. */
  function Disorder(report: Report): real {
    if report.pairs == 0 then 0.0 else (1.0 - report.correct as real / report.pairs as real) * 100.0
  }

  function SelectionLoss(candidates: seq<Candidate>, predicted: Vec): real
    requires Scored(candidates, predicted, [])
  {
    var report := ReportOf(candidates, predicted);
    Regret(report.cells) + PAIR_WEIGHT * Disorder(report)
  }

  // ------------------------------------------------------------ the source's loops

  method CountPairs(candidates: seq<Candidate>, predicted: Vec, members: seq<nat>) returns (tally: Tally)
    requires Scored(candidates, predicted, members)
    ensures tally == TallyAll(candidates, predicted, members)
  {
    hide Timed, TallyOne, TallyWith, TallyAll;
    tally := Tally(0, 0);
    for i := 0 to |members|
      invariant Plus(tally, TallyAll(candidates, predicted, members[i..])) == TallyAll(candidates, predicted, members)
    {
      ghost var soFar := tally;
      for k := i + 1 to |members|
        invariant Plus(tally, TallyWith(candidates, predicted, members[i], members[k..])) ==
                  Plus(soFar, TallyWith(candidates, predicted, members[i], members[i + 1..]))
      {
        tally := Plus(tally, TallyOne(candidates, predicted, members[i], members[k]));
        NextOther(candidates, predicted, members, i, k);
      }
      NextMember(candidates, predicted, members, i);
    }
    NoMoreMembers(candidates, predicted, members);
  }

  lemma RestOf(members: seq<nat>, i: nat)
    requires i < |members|
    ensures members[i..] != [] && members[i..][0] == members[i] && members[i..][1..] == members[i + 1..]
  {
  }

  lemma ScoredRest(candidates: seq<Candidate>, predicted: Vec, members: seq<nat>, i: nat)
    requires Scored(candidates, predicted, members) && i <= |members|
    ensures Scored(candidates, predicted, members[i..])
  {
  }

  lemma NextOther(candidates: seq<Candidate>, predicted: Vec, members: seq<nat>, i: nat, k: nat)
    requires Scored(candidates, predicted, members) && i < k < |members|
    ensures TallyWith(candidates, predicted, members[i], members[k..]) ==
      Plus(TallyOne(candidates, predicted, members[i], members[k]),
           TallyWith(candidates, predicted, members[i], members[k + 1..]))
  {
    RestOf(members, k);
    hide Plus, TallyOne;
  }

  lemma NextMember(candidates: seq<Candidate>, predicted: Vec, members: seq<nat>, i: nat)
    requires Scored(candidates, predicted, members) && i < |members|
    ensures TallyAll(candidates, predicted, members[i..]) ==
      Plus(TallyWith(candidates, predicted, members[i], members[i + 1..]),
           TallyAll(candidates, predicted, members[i + 1..]))
    ensures TallyWith(candidates, predicted, members[i], members[|members|..]) == Tally(0, 0)
  {
    ScoredRest(candidates, predicted, members, i);
    ScoredRest(candidates, predicted, members, i + 1);
    RestOf(members, i);
    TallyAllOf(candidates, predicted, members[i..]);
    hide Plus, TallyAll, Scored;
  }

  lemma TallyAllOf(candidates: seq<Candidate>, predicted: Vec, members: seq<nat>)
    requires Scored(candidates, predicted, members) && members != []
    ensures TallyAll(candidates, predicted, members) ==
      Plus(TallyWith(candidates, predicted, members[0], members[1..]), TallyAll(candidates, predicted, members[1..]))
  {
  }

  lemma NoMoreMembers(candidates: seq<Candidate>, predicted: Vec, members: seq<nat>)
    requires Scored(candidates, predicted, members)
    ensures TallyAll(candidates, predicted, members[|members|..]) == Tally(0, 0)
    ensures members[0..] == members
  {
  }

  lemma NextCandidate(candidates: seq<Candidate>, i: nat, cell: string)
    requires i < |candidates|
    ensures MembersOf(candidates[..i + 1], cell) ==
      MembersOf(candidates[..i], cell) + if candidates[i].cell == cell then [i] else []
    ensures CellsOf(candidates[..i + 1]) ==
      CellsOf(candidates[..i]) + if candidates[i].cell in CellsOf(candidates[..i]) then [] else [candidates[i].cell]
  {
    assert candidates[..i + 1][..i] == candidates[..i];
  }

  lemma NoCandidates(candidates: seq<Candidate>)
    ensures CellsOf(candidates[..0]) == []
  {
  }

  method Group(candidates: seq<Candidate>) returns (order: seq<string>, groups: map<string, seq<nat>>)
    ensures order == CellsOf(candidates)
    ensures forall cell <- order :: cell in groups && groups[cell] == MembersOf(candidates, cell)
  {
    hide MembersOf, CellsOf;
    order, groups := [], map[];
    NoCandidates(candidates);
    for i := 0 to |candidates|
      invariant order == CellsOf(candidates[..i])
      invariant forall cell :: cell in groups <==> cell in order
      invariant forall cell :: cell in groups ==> groups[cell] == MembersOf(candidates[..i], cell)
    {
      var cell := candidates[i].cell;
      forall c: string {
        NextCandidate(candidates, i, c);
      }
      if cell in groups {
        groups := groups[cell := groups[cell] + [i]];
      } else {
        order := order + [cell];
        groups := groups[cell := [i]];
      }
    }
    assert candidates[..|candidates|] == candidates;
  }

  method EvaluateCell(candidates: seq<Candidate>, predicted: Vec, cell: string, members: seq<nat>)
    returns (one: CellReport, tally: Tally)
    requires Timed(candidates) && |predicted| == |candidates|
    requires members == MembersOf(candidates, cell) != []
    ensures one == CellReportOf(candidates, predicted, cell) && tally == TallyAll(candidates, predicted, members)
  {
    var times := Times(candidates, members);
    var best, selected := members[FirstLeast(times)], members[FirstLeast(Scores(predicted, members))];
    var ms := candidates[best].ms;
    one := CellReport(cell, selected, best, Percent(candidates[selected].ms, ms), Percent(RunnerUp(times), ms));
    tally := CountPairs(candidates, predicted, members);
  }

  method Evaluate(candidates: seq<Candidate>, predicted: Vec) returns (report: Report)
    requires Timed(candidates) && |predicted| == |candidates|
    ensures report == ReportOf(candidates, predicted)
  {
    hide CellReportOf, TallyAll, ClearMiss, MembersOf, CellsOf;
    var order, groups := Group(candidates);
    report := Report([], 0, 0, []);
    for k := 0 to |order|
      invariant report == ReportOn(candidates, predicted, order[..k])
    {
      assert order[k] in order;
      var one, tally := EvaluateCell(candidates, predicted, order[k], groups[order[k]]);
      assert order[..k + 1][..k] == order[..k];
      report := Report(report.cells + [one], report.pairs + tally.pairs, report.correct + tally.correct,
                       report.misses + if ClearMiss(candidates, one) then [order[k]] else []);
    }
    assert order[..|order|] == order;
  }

  // ------------------------------------------------- only the order in a cell matters

  /** Both predictions order every two candidates of a cell the same way. */
  ghost predicate SameOrder(candidates: seq<Candidate>, p: Vec, q: Vec) {
    && |p| == |q| == |candidates|
    && forall i, k | 0 <= i < |candidates| && 0 <= k < |candidates| && candidates[i].cell == candidates[k].cell ::
         (p[i] < p[k]) == (q[i] < q[k])
  }

  lemma SameFirstLeast(a: seq<real>, b: seq<real>)
    requires |a| == |b| > 0 && forall i, k :: 0 <= i < |a| && 0 <= k < |a| ==> ((a[i] < a[k]) == (b[i] < b[k]))
    ensures FirstLeast(a) == FirstLeast(b)
  {
    var x, y := FirstLeast(a), FirstLeast(b);
    assert !(a[y] < a[x]) && !(b[x] < b[y]);
  }

  ghost predicate OneCell(candidates: seq<Candidate>, members: seq<nat>, cell: string) {
    forall k :: 0 <= k < |members| ==> members[k] < |candidates| && candidates[members[k]].cell == cell
  }

  lemma {:induction false} SameTallyWith(candidates: seq<Candidate>, p: Vec, q: Vec, a: nat, others: seq<nat>)
    requires SameOrder(candidates, p, q) && Scored(candidates, p, others)
    requires a < |candidates| && OneCell(candidates, others, candidates[a].cell)
    ensures TallyWith(candidates, p, a, others) == TallyWith(candidates, q, a, others)
  {
    if others != [] {
      assert candidates[others[0]].cell == candidates[a].cell;
      SameTallyWith(candidates, p, q, a, others[1..]);
    }
  }

  lemma {:induction false} SameTally(candidates: seq<Candidate>, p: Vec, q: Vec, members: seq<nat>, cell: string)
    requires SameOrder(candidates, p, q) && Scored(candidates, p, members) && OneCell(candidates, members, cell)
    ensures TallyAll(candidates, p, members) == TallyAll(candidates, q, members)
  {
    if members != [] {
      assert candidates[members[0]].cell == cell;
      SameTallyWith(candidates, p, q, members[0], members[1..]);
      SameTally(candidates, p, q, members[1..], cell);
    }
  }

  lemma SameSelected(candidates: seq<Candidate>, p: Vec, q: Vec, members: seq<nat>, cell: string)
    requires SameOrder(candidates, p, q) && OneCell(candidates, members, cell) && members != []
    ensures FirstLeast(Scores(p, members)) == FirstLeast(Scores(q, members))
  {
    var a, b := Scores(p, members), Scores(q, members);
    forall i, k | 0 <= i < |a| && 0 <= k < |a| ensures (a[i] < a[k]) == (b[i] < b[k]) {
      assert candidates[members[i]].cell == cell && candidates[members[k]].cell == cell;
    }
    SameFirstLeast(a, b);
  }

  lemma SameCellReport(candidates: seq<Candidate>, p: Vec, q: Vec, cell: string)
    requires SameOrder(candidates, p, q) && Timed(candidates) && MembersOf(candidates, cell) != []
    ensures CellReportOf(candidates, p, cell) == CellReportOf(candidates, q, cell)
    ensures TallyAll(candidates, p, MembersOf(candidates, cell)) == TallyAll(candidates, q, MembersOf(candidates, cell))
  {
    var members := MembersOf(candidates, cell);
    assert OneCell(candidates, members, cell);
    SameTally(candidates, p, q, members, cell);
    SameSelected(candidates, p, q, members, cell);
    hide SameOrder, OneCell, TallyAll, Percent, RunnerUp, FirstLeast, Scores;
  }

  lemma {:induction false} SameReport(candidates: seq<Candidate>, p: Vec, q: Vec, cells: seq<string>)
    requires SameOrder(candidates, p, q) && Timed(candidates)
    requires forall cell <- cells :: MembersOf(candidates, cell) != []
    ensures ReportOn(candidates, p, cells) == ReportOn(candidates, q, cells)
  {
    hide CellReportOf, TallyAll, ClearMiss, MembersOf, Timed, SameOrder;
    if cells != [] {
      SameReport(candidates, p, q, cells[..|cells| - 1]);
      SameCellReport(candidates, p, q, cells[|cells| - 1]);
    }
  }

  /** The report, and with it the selection loss, depends only on how the predictions order the
      candidates of each cell. */
  lemma OnlyOrderMatters(candidates: seq<Candidate>, p: Vec, q: Vec)
    requires SameOrder(candidates, p, q) && Timed(candidates)
    ensures ReportOf(candidates, p) == ReportOf(candidates, q)
    ensures SelectionLoss(candidates, p) == SelectionLoss(candidates, q)
  {
    SameReport(candidates, p, q, CellsOf(candidates));
  }

  // ------------------------------------------------------------ linear predictions

  ghost predicate Square(rows: seq<Vec>, n: nat) {
    forall i :: 0 <= i < |rows| ==> |rows[i]| == n
  }

  /** The product of the term matrix, given by its rows, and the coefficients. */
  function Predictions(rows: seq<Vec>, beta: Vec): (predicted: Vec)
    requires Square(rows, |beta|)
    ensures |predicted| == |rows|
  {
    seq(|rows|, i requires 0 <= i < |rows| => RealVectors.Dot(rows[i], beta))
  }

  function Scaled(c: real, v: Vec): (w: Vec)
    ensures |w| == |v|
  {
    seq(|v|, i requires 0 <= i < |v| => c * v[i])
  }

  lemma {:induction false} DotScaled(a: Vec, c: real, b: Vec)
    requires |a| == |b|
    ensures RealVectors.Dot(a, Scaled(c, b)) == c * RealVectors.Dot(a, b)
  {
    if a != [] {
      DotScaled(a[1..], c, b[1..]);
      assert Scaled(c, b)[1..] == Scaled(c, b[1..]) by {
        forall i | 0 <= i < |b| - 1 ensures Scaled(c, b)[1..][i] == Scaled(c, b[1..])[i] {
          assert b[1..][i] == b[i + 1];
        }
      }
      Distribute(a[0], c, b[0], Scaled(c, b)[0], RealVectors.Dot(a[1..], b[1..]));
    }
  }

  lemma Distribute(a: real, c: real, b: real, cb: real, rest: real)
    requires cb == c * b
    ensures a * cb + c * rest == c * (a * b + rest)
  {
  }

  lemma OrderSurvives(a: real, b: real, c: real, s: real)
    requires c > 0.0
    ensures (a < b) == (c * a + s < c * b + s)
  {
    assert c * b - c * a == c * (b - a);
  }

  /** Scaling all coefficients by a positive factor changes no report. */
  lemma ScalingKeepsReport(candidates: seq<Candidate>, rows: seq<Vec>, beta: Vec, c: real)
    requires Timed(candidates) && |rows| == |candidates| && Square(rows, |beta|) && c > 0.0
    ensures ReportOf(candidates, Predictions(rows, Scaled(c, beta))) == ReportOf(candidates, Predictions(rows, beta))
  {
    var p, q := Predictions(rows, beta), Predictions(rows, Scaled(c, beta));
    forall i, k | 0 <= i < |candidates| && 0 <= k < |candidates| ensures (p[i] < p[k]) == (q[i] < q[k]) {
      DotScaled(rows[i], c, beta);
      DotScaled(rows[k], c, beta);
      OrderSurvives(p[i], p[k], c, 0.0);
    }
    OnlyOrderMatters(candidates, p, q);
  }

  /** So does a constant for each cell, such as a term that all its layouts share. */
  lemma CellConstantsKeepReport(candidates: seq<Candidate>, p: Vec, q: Vec, shift: string -> real)
    requires Timed(candidates) && |p| == |q| == |candidates|
    requires forall i :: 0 <= i < |candidates| ==> q[i] == p[i] + shift(candidates[i].cell)
    ensures ReportOf(candidates, p) == ReportOf(candidates, q)
  {
    OnlyOrderMatters(candidates, p, q);
  }

  // ---------------------------------------------------------- when the loss is zero

  /** In this cell the selected layout is as fast as any, and every separated pair is in order. */
  ghost predicate WellRanked(candidates: seq<Candidate>, predicted: Vec, cell: string)
    requires Scored(candidates, predicted, []) && MembersOf(candidates, cell) != []
  {
    var members := MembersOf(candidates, cell);
    && (forall m <- members :: candidates[CellReportOf(candidates, predicted, cell).selected].ms <= candidates[m].ms)
    && Agreeing(candidates, predicted, members)
  }

  /** A separated pair is predicted in order. */
  predicate Right(candidates: seq<Candidate>, predicted: Vec, a: nat, b: nat)
    requires Scored(candidates, predicted, []) && a < |candidates| && b < |candidates|
  {
    Separated(candidates[a], candidates[b]) ==> InOrder(candidates, predicted, a, b)
  }

  ghost predicate Agreeing(candidates: seq<Candidate>, predicted: Vec, members: seq<nat>)
    requires Scored(candidates, predicted, members)
  {
    forall j, k | 0 <= j < k < |members| :: Right(candidates, predicted, members[j], members[k])
  }

  ghost predicate RightWith(candidates: seq<Candidate>, predicted: Vec, a: nat, others: seq<nat>)
    requires Scored(candidates, predicted, others) && a < |candidates|
  {
    forall k | 0 <= k < |others| :: Right(candidates, predicted, a, others[k])
  }

  lemma RightWithSplits(candidates: seq<Candidate>, predicted: Vec, a: nat, others: seq<nat>)
    requires Scored(candidates, predicted, others) && a < |candidates| && others != []
    ensures RightWith(candidates, predicted, a, others) <==>
      Right(candidates, predicted, a, others[0]) && RightWith(candidates, predicted, a, others[1..])
  {
    hide Right, Timed;
    assert forall k | 1 <= k < |others| :: others[k] == others[1..][k - 1];
  }

  lemma {:induction false} TallyWithBounds(candidates: seq<Candidate>, predicted: Vec, a: nat, others: seq<nat>)
    requires Scored(candidates, predicted, others) && a < |candidates|
    ensures var tally := TallyWith(candidates, predicted, a, others);
      tally.correct <= tally.pairs && (tally.correct == tally.pairs <==> RightWith(candidates, predicted, a, others))
  {
    if others != [] {
      TallyWithBounds(candidates, predicted, a, others[1..]);
      RightWithSplits(candidates, predicted, a, others);
      hide RightWith, Timed, Separated, InOrder;
    }
  }

  lemma {:induction false} TallyBounds(candidates: seq<Candidate>, predicted: Vec, members: seq<nat>)
    requires Scored(candidates, predicted, members)
    ensures var tally := TallyAll(candidates, predicted, members);
      tally.correct <= tally.pairs && (tally.correct == tally.pairs <==> Agreeing(candidates, predicted, members))
  {
    hide Right, RightWith, TallyWith, Timed;
    if members != [] {
      TallyBounds(candidates, predicted, members[1..]);
      TallyWithBounds(candidates, predicted, members[0], members[1..]);
      AgreeingSplits(candidates, predicted, members);
      hide Agreeing;
    }
  }

  lemma AgreeingSplits(candidates: seq<Candidate>, predicted: Vec, members: seq<nat>)
    requires Scored(candidates, predicted, members) && members != []
    ensures Agreeing(candidates, predicted, members) <==>
      Agreeing(candidates, predicted, members[1..]) && RightWith(candidates, predicted, members[0], members[1..])
  {
    hide Right, Timed;
    var rest := members[1..];
    assert forall k | 1 <= k < |members| :: members[k] == rest[k - 1];
    if Agreeing(candidates, predicted, rest) && RightWith(candidates, predicted, members[0], rest) {
      forall j, k | 0 <= j < k < |members| ensures Right(candidates, predicted, members[j], members[k]) {
        if j > 0 {
          assert Right(candidates, predicted, rest[j - 1], rest[k - 1]);
        } else {
          assert Right(candidates, predicted, members[0], rest[k - 1]);
        }
      }
    }
  }

  lemma PercentSign(ms: real, best: real)
    requires best > 0.0 && ms >= best
    ensures Percent(ms, best) >= 0.0 && (Percent(ms, best) == 0.0 <==> ms == best)
  {
  }

  lemma CellRegretSign(candidates: seq<Candidate>, predicted: Vec, cell: string)
    requires Scored(candidates, predicted, []) && MembersOf(candidates, cell) != []
    ensures var one := CellReportOf(candidates, predicted, cell);
      one.regret >= 0.0
      && (one.regret == 0.0 <==>
           forall m <- MembersOf(candidates, cell) :: candidates[one.selected].ms <= candidates[m].ms)
  {
    var members := MembersOf(candidates, cell);
    var one := CellReportOf(candidates, predicted, cell);
    var times := Times(candidates, members);
    assert one.best == members[FirstLeast(times)];
    forall m | m in members ensures candidates[one.best].ms <= candidates[m].ms {
      var k :| 0 <= k < |members| && members[k] == m;
      assert times[k] == candidates[m].ms;
    }
    PercentSign(candidates[one.selected].ms, candidates[one.best].ms);
    hide Percent;
  }

  lemma CellSign(candidates: seq<Candidate>, predicted: Vec, cell: string)
    requires Scored(candidates, predicted, []) && MembersOf(candidates, cell) != []
    ensures var tally := TallyAll(candidates, predicted, MembersOf(candidates, cell));
      var regret := CellReportOf(candidates, predicted, cell).regret;
      regret >= 0.0 && tally.correct <= tally.pairs
      && (regret == 0.0 && tally.correct == tally.pairs <==> WellRanked(candidates, predicted, cell))
  {
    CellRegretSign(candidates, predicted, cell);
    TallyBounds(candidates, predicted, MembersOf(candidates, cell));
    hide CellReportOf, TallyAll, MembersOf, Agreeing;
  }

  lemma {:induction false} ReportSign(candidates: seq<Candidate>, predicted: Vec, cells: seq<string>)
    requires Scored(candidates, predicted, []) && forall cell <- cells :: MembersOf(candidates, cell) != []
    ensures var report := ReportOn(candidates, predicted, cells);
      && Regret(report.cells) >= 0.0 && report.correct <= report.pairs
      && (Regret(report.cells) == 0.0 && report.correct == report.pairs
          <==> forall cell <- cells :: WellRanked(candidates, predicted, cell))
  {
    hide CellReportOf, TallyAll, MembersOf, WellRanked, ClearMiss;
    if cells != [] {
      var before, cell := cells[..|cells| - 1], cells[|cells| - 1];
      ReportSign(candidates, predicted, before);
      CellSign(candidates, predicted, cell);
      assert cells == before + [cell];
    }
  }

  /** The loss is never negative, and it is zero exactly if every cell is well ranked. */
  lemma LossIsZeroIff(candidates: seq<Candidate>, predicted: Vec)
    requires Scored(candidates, predicted, [])
    ensures SelectionLoss(candidates, predicted) >= 0.0
    ensures SelectionLoss(candidates, predicted) == 0.0 <==>
      forall cell <- CellsOf(candidates) :: WellRanked(candidates, predicted, cell)
  {
    ReportSign(candidates, predicted, CellsOf(candidates));
    DisorderSign(ReportOf(candidates, predicted));
    hide Regret, Disorder;
  }

  lemma DisorderSign(report: Report)
    requires report.correct <= report.pairs
    ensures Disorder(report) >= 0.0 && (Disorder(report) == 0.0 <==> report.correct == report.pairs)
  {
    if report.pairs > 0 {
      Shortfall(report.correct as real, report.pairs as real);
    }
  }

  lemma Shortfall(part: real, whole: real)
    requires 0.0 <= part <= whole && whole > 0.0
    ensures (1.0 - part / whole) * 100.0 >= 0.0
    ensures (1.0 - part / whole) * 100.0 == 0.0 <==> part == whole
  {
    QuotientBelowOne(part, whole, part / whole);
  }

  lemma QuotientBelowOne(part: real, whole: real, q: real)
    requires 0.0 <= part <= whole && whole > 0.0 && q * whole == part
    ensures q <= 1.0 && (q == 1.0 <==> part == whole)
  {
    assert (1.0 - q) * whole == whole - part;
  }
}
