/** What the report on a cost model says, in terms of the candidates and the predictions alone. */
module SelectionLaws {
  import opened Selection
  import opened Sequences

  ghost predicate In(candidates: seq<Candidate>, cell: string, i: nat) {
    i < |candidates| && candidates[i].cell == cell
  }

  /** The members of a cell are its candidates, in their order. */
  lemma {:induction false} MembersAre(candidates: seq<Candidate>, cell: string)
    ensures forall i: nat :: i in MembersOf(candidates, cell) <==> In(candidates, cell, i)
    ensures Rising(MembersOf(candidates, cell))
  {
    if candidates != [] {
      var n := |candidates| - 1;
      MembersAre(candidates[..n], cell);
      assert forall i: nat :: i in MembersOf(candidates[..n], cell) <==> In(candidates[..n], cell, i);
    }
  }

  ghost predicate Rising(s: seq<nat>) {
    forall j, k :: 0 <= j < k < |s| ==> s[j] < s[k]
  }

  // --------------------------------------------------------------------- one cell

  /** The first candidate of the cell at which the key is least. */
  ghost predicate LeastIn(candidates: seq<Candidate>, cell: string, key: seq<real>, m: nat)
    requires |key| == |candidates|
  {
    && In(candidates, cell, m)
    && (forall i: nat | In(candidates, cell, i) :: key[m] <= key[i])
    && forall i: nat | In(candidates, cell, i) && i < m :: key[m] < key[i]
  }

  /** By how many percent of the least time a time is above it. */
  ghost predicate PercentIs(percent: real, ms: real, least: real) {
    percent * least == (ms - least) * 100.0
  }

  ghost function TimesOf(candidates: seq<Candidate>): (times: seq<real>)
    ensures |times| == |candidates| && forall i :: 0 <= i < |times| ==> times[i] == candidates[i].ms
  {
    seq(|candidates|, i requires 0 <= i < |candidates| => candidates[i].ms)
  }

  /** The least time of the others in the cell, or the fastest's own if there are none. */
  ghost predicate SecondIs(candidates: seq<Candidate>, cell: string, best: nat, second: nat)
    requires best < |candidates|
  {
    && In(candidates, cell, second)
    && (forall i: nat | In(candidates, cell, i) && i != best ::
          second != best && candidates[second].ms <= candidates[i].ms)
  }

  /** What is reported on a cell. */
  ghost predicate CellIs(candidates: seq<Candidate>, predicted: Vec, one: CellReport)
    requires |predicted| == |candidates|
  {
    && LeastIn(candidates, one.cell, TimesOf(candidates), one.best)
    && LeastIn(candidates, one.cell, predicted, one.selected)
    && PercentIs(one.regret, candidates[one.selected].ms, candidates[one.best].ms)
    && exists second: nat ::
         && SecondIs(candidates, one.cell, one.best, second)
         && PercentIs(one.lead, candidates[second].ms, candidates[one.best].ms)
  }

  lemma LeastOfMembers(candidates: seq<Candidate>, cell: string, key: seq<real>, keys: seq<real>)
    requires |key| == |candidates| && |keys| == |MembersOf(candidates, cell)| > 0
    requires forall k :: 0 <= k < |keys| ==> keys[k] == key[MembersOf(candidates, cell)[k]]
    ensures LeastIn(candidates, cell, key, MembersOf(candidates, cell)[FirstLeast(keys)])
  {
    var members := MembersOf(candidates, cell);
    MembersAre(candidates, cell);
    hide MembersOf;
    var f := FirstLeast(keys);
    forall i: nat | In(candidates, cell, i)
      ensures key[members[f]] <= key[i] && (i < members[f] ==> key[members[f]] < key[i])
    {
      var k :| 0 <= k < |members| && members[k] == i;
      assert keys[k] == key[i];
    }
  }

  lemma PercentOf(ms: real, least: real)
    requires least > 0.0
    ensures PercentIs(Percent(ms, least), ms, least)
  {
    var q := (ms - least) / least;
    assert q * 100.0 * least == (q * least) * 100.0;
  }

  lemma SecondOf(candidates: seq<Candidate>, cell: string, members: seq<nat>) returns (second: nat)
    requires members == MembersOf(candidates, cell) != []
    ensures SecondIs(candidates, cell, members[FirstLeast(Selection.Times(candidates, members))], second)
    ensures candidates[second].ms == RunnerUp(Selection.Times(candidates, members))
  {
    var times := Selection.Times(candidates, members);
    var f := FirstLeast(times);
    MembersAre(candidates, cell);
    hide MembersOf;
    second := members[f];
    if |members| > 1 {
      RunnerUpIsSecond(times);
      var k :| 0 <= k < |times| && k != f && times[k] == RunnerUp(times);
      second := members[k];
      forall i: nat | In(candidates, cell, i) && i != members[f]
        ensures second != members[f] && candidates[second].ms <= candidates[i].ms
      {
        var j :| 0 <= j < |members| && members[j] == i;
        assert times[j] == candidates[i].ms;
      }
    }
  }

  lemma CellOf(candidates: seq<Candidate>, predicted: Vec, cell: string)
    requires Scored(candidates, predicted, []) && MembersOf(candidates, cell) != []
    ensures CellIs(candidates, predicted, CellReportOf(candidates, predicted, cell))
  {
    var members, one := MembersOf(candidates, cell), CellReportOf(candidates, predicted, cell);
    LeastOfMembers(candidates, cell, TimesOf(candidates), Selection.Times(candidates, members));
    LeastOfMembers(candidates, cell, predicted, Scores(predicted, members));
    var second := SecondOf(candidates, cell, members);
    var least := candidates[one.best].ms;
    PercentOf(candidates[one.selected].ms, least);
    PercentOf(candidates[second].ms, least);
    hide MembersOf, Percent, RunnerUp, LeastIn, SecondIs, PercentIs;
  }

  // ---------------------------------------------------------------------- the cells

  /** Every cell that occurs is in the list, once, and the list is in the order in which they first occur. */
  ghost predicate CellsAre(candidates: seq<Candidate>, cells: seq<string>) {
    && (forall cell :: cell in cells <==> exists i: nat :: In(candidates, cell, i))
    && InFirstOrder(candidates, cells)
  }

  ghost predicate ComesFirst(candidates: seq<Candidate>, one: string, other: string) {
    exists i: nat :: In(candidates, one, i) && forall k: nat | In(candidates, other, k) :: i < k
  }

  lemma {:induction false} CellsOccur(candidates: seq<Candidate>, cell: string)
    ensures cell in CellsOf(candidates) <==> exists i: nat :: In(candidates, cell, i)
  {
    MembersAre(candidates, cell);
    var members := MembersOf(candidates, cell);
    hide MembersOf;
    if members != [] {
      assert In(candidates, cell, members[0]);
    }
  }

  lemma {:induction false} InOneMore(candidates: seq<Candidate>, n: nat, cell: string, i: nat)
    requires n == |candidates| - 1
    ensures In(candidates, cell, i) <==> In(candidates[..n], cell, i) || (i == n && cell == candidates[n].cell)
  {
  }

  lemma ComesFirstStill(candidates: seq<Candidate>, n: nat, one: string, other: string)
    requires n == |candidates| - 1 && ComesFirst(candidates[..n], one, other)
    ensures ComesFirst(candidates, one, other)
  {
    var before := candidates[..n];
    var i: nat :| In(before, one, i) && forall k: nat | In(before, other, k) :: i < k;
    assert In(candidates, one, i);
    forall k: nat | In(candidates, other, k) ensures i < k {
      InOneMore(candidates, n, other, k);
    }
  }

  lemma ComesBeforeLast(candidates: seq<Candidate>, n: nat, one: string)
    requires n == |candidates| - 1 && one in CellsOf(candidates[..n]) && candidates[n].cell !in CellsOf(candidates[..n])
    ensures ComesFirst(candidates[..n], one, candidates[n].cell)
  {
    CellsOccur(candidates[..n], one);
    CellsOccur(candidates[..n], candidates[n].cell);
  }

  lemma {:induction false} CellsOfAre(candidates: seq<Candidate>)
    ensures CellsAre(candidates, CellsOf(candidates))
  {
    forall cell ensures cell in CellsOf(candidates) <==> exists i: nat :: In(candidates, cell, i) {
      CellsOccur(candidates, cell);
    }
    if candidates != [] {
      var n := |candidates| - 1;
      CellsOfAre(candidates[..n]);
      OrderOneMore(candidates, n);
    }
    hide CellsOf, In;
  }

  ghost predicate InFirstOrder(candidates: seq<Candidate>, cells: seq<string>) {
    forall j, k | 0 <= j < k < |cells| :: ComesFirst(candidates, cells[j], cells[k])
  }

  lemma OrderOneMore(candidates: seq<Candidate>, n: nat)
    requires n == |candidates| - 1 && InFirstOrder(candidates[..n], CellsOf(candidates[..n]))
    ensures InFirstOrder(candidates, CellsOf(candidates))
  {
    var cells, last := CellsOf(candidates[..n]), candidates[n].cell;
    var all := CellsOf(candidates);
    assert all == cells + if last in cells then [] else [last];
    hide CellsOf, ComesFirst, In;
    forall j, k | 0 <= j < k < |all| ensures ComesFirst(candidates, all[j], all[k]) {
      assert all[j] == cells[j] && cells[j] in cells;
      if k == |cells| {
        ComesBeforeLast(candidates, n, cells[j]);
      }
      ComesFirstStill(candidates, n, cells[j], all[k]);
    }
  }

  // ---------------------------------------------------------------------- the pairs

  /** The slower one is more than 3 percent slower than the faster one. */
  ghost predicate Apart(a: Candidate, b: Candidate) {
    (b.ms - a.ms) * 100.0 > 3.0 * a.ms || (a.ms - b.ms) * 100.0 > 3.0 * b.ms
  }

  /** A pair that counts; with `right` one that the predictions order as the times do. */
  ghost predicate Counts(candidates: seq<Candidate>, predicted: Vec, right: bool, i: nat, k: nat)
    requires |predicted| == |candidates|
  {
    && i < |candidates| && k < |candidates| && Apart(candidates[i], candidates[k])
    && (right ==> (candidates[i].ms < candidates[k].ms <==> predicted[i] < predicted[k]))
  }

  ghost function Part(tally: Tally, right: bool): nat {
    if right then tally.correct else tally.pairs
  }

  lemma ApartIsSeparated(a: Candidate, b: Candidate)
    requires a.ms > 0.0 && b.ms > 0.0
    ensures Apart(a, b) <==> Separated(a, b)
  {
    if a.ms <= b.ms {
      AboveThree(b.ms, a.ms);
    } else {
      AboveThree(a.ms, b.ms);
    }
    hide Percent;
  }

  lemma AboveThree(ms: real, least: real)
    requires ms >= least > 0.0
    ensures Percent(ms, least) > 3.0 <==> (ms - least) * 100.0 > 3.0 * least
  {
    PercentOf(ms, least);
    Exceeds(Percent(ms, least), least, (ms - least) * 100.0);
    hide Percent;
  }

  lemma Exceeds(percent: real, least: real, more: real)
    requires least > 0.0 && percent * least == more
    ensures percent > 3.0 <==> more > 3.0 * least
  {
    SignOf(percent - 3.0, least);
  }

  lemma SignOf(x: real, y: real)
    requires y > 0.0
    ensures x * y > 0.0 <==> x > 0.0
  {
    if x > 0.0 {
      assert x * y > 0.0;
    } else {
      assert -x * y >= 0.0;
    }
  }

  lemma OneCounts(candidates: seq<Candidate>, predicted: Vec, right: bool, i: nat, k: nat)
    requires Scored(candidates, predicted, []) && i < |candidates| && k < |candidates|
    ensures Part(TallyOne(candidates, predicted, i, k), right) ==
      if Counts(candidates, predicted, right, i, k) then 1 else 0
  {
    ApartIsSeparated(candidates[i], candidates[k]);
    hide Apart, Separated;
  }

  ghost function PairsWith(candidates: seq<Candidate>, predicted: Vec, right: bool, a: nat, others: seq<nat>)
    : set<(nat, nat)>
    requires |predicted| == |candidates|
  {
    set k | k in others && Counts(candidates, predicted, right, a, k) :: (a, k)
  }

  ghost function PairsAmong(candidates: seq<Candidate>, predicted: Vec, right: bool, members: seq<nat>): set<(nat, nat)>
    requires |predicted| == |candidates|
  {
    set i, k | i in members && k in members && i < k && Counts(candidates, predicted, right, i, k) :: (i, k)
  }

  lemma PairsWithFirst(candidates: seq<Candidate>, predicted: Vec, right: bool, a: nat, first: nat, rest: seq<nat>)
    requires |predicted| == |candidates| && first !in rest
    ensures |PairsWith(candidates, predicted, right, a, [first] + rest)| ==
      |PairsWith(candidates, predicted, right, a, rest)|
      + if Counts(candidates, predicted, right, a, first) then 1 else 0
  {
    hide Counts;
    var all := PairsWith(candidates, predicted, right, a, [first] + rest);
    var fewer := PairsWith(candidates, predicted, right, a, rest);
    assert all == fewer + if Counts(candidates, predicted, right, a, first) then {(a, first)} else {};
  }

  lemma {:induction false} WithIsCount(candidates: seq<Candidate>, predicted: Vec, right: bool, a: nat,
                                       others: seq<nat>)
    requires Scored(candidates, predicted, others) && Rising(others) && a < |candidates|
    ensures Part(TallyWith(candidates, predicted, a, others), right) ==
      |PairsWith(candidates, predicted, right, a, others)|
  {
    if others == [] {
      assert PairsWith(candidates, predicted, right, a, others) == {};
    } else {
      var first, rest := others[0], others[1..];
      assert others == [first] + rest && first !in rest && Rising(rest) && Scored(candidates, predicted, rest);
      PairsWithFirst(candidates, predicted, right, a, first, rest);
      WithIsCount(candidates, predicted, right, a, rest);
      OneCounts(candidates, predicted, right, a, first);
      PartOfSum(TallyOne(candidates, predicted, a, first), TallyWith(candidates, predicted, a, rest), right);
      hide Counts, TallyOne, PairsWith, Plus, Part, Scored, Rising;
    }
  }

  lemma PairsOfFirst(candidates: seq<Candidate>, predicted: Vec, right: bool, first: nat, rest: seq<nat>)
    requires |predicted| == |candidates| && forall k <- rest :: first < k
    ensures PairsAmong(candidates, predicted, right, [first] + rest) ==
      PairsWith(candidates, predicted, right, first, rest) + PairsAmong(candidates, predicted, right, rest)
    ensures PairsWith(candidates, predicted, right, first, rest) !! PairsAmong(candidates, predicted, right, rest)
  {
    hide Counts;
    forall i | i in [first] + rest ensures i == first || i in rest {
    }
  }

  lemma PartOfSum(a: Tally, b: Tally, right: bool)
    ensures Part(Plus(a, b), right) == Part(a, right) + Part(b, right)
  {
  }

  lemma {:induction false} AmongIsCount(candidates: seq<Candidate>, predicted: Vec, right: bool, members: seq<nat>)
    requires Scored(candidates, predicted, members) && Rising(members)
    ensures Part(TallyAll(candidates, predicted, members), right) == |PairsAmong(candidates, predicted, right, members)|
  {
    if members == [] {
      assert PairsAmong(candidates, predicted, right, members) == {};
    } else {
      var first, rest := members[0], members[1..];
      assert members == [first] + rest && Rising(rest) && Scored(candidates, predicted, rest);
      PairsOfFirst(candidates, predicted, right, first, rest);
      AmongIsCount(candidates, predicted, right, rest);
      WithIsCount(candidates, predicted, right, first, rest);
      TallyAllOf(candidates, predicted, members);
      PartOfSum(TallyWith(candidates, predicted, first, rest), TallyAll(candidates, predicted, rest), right);
      hide *;
    }
  }

  ghost function PairsIn(candidates: seq<Candidate>, predicted: Vec, right: bool, cells: seq<string>): set<(nat, nat)>
    requires |predicted| == |candidates|
  {
    set i: nat, k: nat | 0 <= i < k < |candidates| && candidates[i].cell == candidates[k].cell
                         && candidates[i].cell in cells && Counts(candidates, predicted, right, i, k) :: (i, k)
  }

  ghost predicate Distinct(cells: seq<string>) {
    forall j, k :: 0 <= j < k < |cells| ==> cells[j] != cells[k]
  }

  lemma PairsOfCell(candidates: seq<Candidate>, predicted: Vec, right: bool, cell: string)
    requires |predicted| == |candidates|
    ensures PairsAmong(candidates, predicted, right, MembersOf(candidates, cell)) ==
      PairsIn(candidates, predicted, right, [cell])
  {
    MembersAre(candidates, cell);
    hide MembersOf, Counts;
  }

  lemma PairsOneMore(candidates: seq<Candidate>, predicted: Vec, right: bool, before: seq<string>, cell: string)
    requires |predicted| == |candidates| && cell !in before
    ensures |PairsIn(candidates, predicted, right, before + [cell])| ==
      |PairsIn(candidates, predicted, right, before)| + |PairsIn(candidates, predicted, right, [cell])|
  {
    hide Counts;
    var all := PairsIn(candidates, predicted, right, before + [cell]);
    var some, more := PairsIn(candidates, predicted, right, before), PairsIn(candidates, predicted, right, [cell]);
    assert all == some + more && some !! more;
  }

  lemma {:induction false} ReportCounts(candidates: seq<Candidate>, predicted: Vec, cells: seq<string>)
    requires Scored(candidates, predicted, []) && Distinct(cells)
    requires forall cell <- cells :: MembersOf(candidates, cell) != []
    ensures var report := ReportOn(candidates, predicted, cells);
      && report.pairs == |PairsIn(candidates, predicted, false, cells)|
      && report.correct == |PairsIn(candidates, predicted, true, cells)|
  {
    if cells == [] {
      assert PairsIn(candidates, predicted, false, []) == {} && PairsIn(candidates, predicted, true, []) == {};
    } else {
      var n := |cells| - 1;
      var before, cell := cells[..n], cells[n];
      assert cells == before + [cell] && cell !in before;
      ReportCounts(candidates, predicted, before);
      MembersAre(candidates, cell);
      PairsOneMore(candidates, predicted, false, before, cell);
      PairsOneMore(candidates, predicted, true, before, cell);
      PairsOfCell(candidates, predicted, false, cell);
      PairsOfCell(candidates, predicted, true, cell);
      AmongIsCount(candidates, predicted, false, MembersOf(candidates, cell));
      AmongIsCount(candidates, predicted, true, MembersOf(candidates, cell));
      hide PairsIn, PairsAmong, MembersOf, CellReportOf, ClearMiss, TallyAll;
    }
  }

  // -------------------------------------------------------------------- the report

  /** A clear cell that the model gets wrong: the fastest leads by more than 3 percent and than its own
      spread, and the selected one is more than 5 percent off. */
  ghost predicate IsMiss(candidates: seq<Candidate>, one: CellReport)
    requires one.best < |candidates|
  {
    one.lead > 3.0 && one.lead > candidates[one.best].spread && one.regret > 5.0
  }

  ghost predicate ListsAre(candidates: seq<Candidate>, predicted: Vec, cells: seq<string>, report: Report)
    requires |predicted| == |candidates|
  {
    && |report.cells| == |cells|
    && (forall k | 0 <= k < |cells| ::
          report.cells[k].cell == cells[k] && CellIs(candidates, predicted, report.cells[k]))
    && MissesAre(candidates, report.cells, report.misses)
  }

  ghost predicate MissesAre(candidates: seq<Candidate>, cells: seq<CellReport>, misses: seq<string>) {
    forall cell :: cell in misses <==>
      exists one <- cells :: one.cell == cell && one.best < |candidates| && IsMiss(candidates, one)
  }

  lemma MissesOneMore(candidates: seq<Candidate>, cells: seq<CellReport>, misses: seq<string>, one: CellReport)
    requires MissesAre(candidates, cells, misses) && one.best < |candidates|
    ensures MissesAre(candidates, cells + [one], misses + if ClearMiss(candidates, one) then [one.cell] else [])
  {
    assert ClearMiss(candidates, one) <==> IsMiss(candidates, one);
    hide ClearMiss, IsMiss;
    assert forall o :: o in cells + [one] <==> o in cells || o == one;
  }

  lemma {:induction false} ReportLists(candidates: seq<Candidate>, predicted: Vec, cells: seq<string>)
    requires Scored(candidates, predicted, []) && forall cell <- cells :: MembersOf(candidates, cell) != []
    ensures ListsAre(candidates, predicted, cells, ReportOn(candidates, predicted, cells))
  {
    hide CellIs, MembersOf, CellReportOf, TallyAll;
    if cells != [] {
      var n := |cells| - 1;
      var some := ReportOn(candidates, predicted, cells[..n]);
      ReportLists(candidates, predicted, cells[..n]);
      CellOf(candidates, predicted, cells[n]);
      MissesOneMore(candidates, some.cells, some.misses, CellReportOf(candidates, predicted, cells[n]));
      hide MissesAre, ClearMiss, IsMiss;
    }
  }

  /** All of the report: the cells that occur, each once; the misses; and over all pairs of candidates of one
      cell how many have times apart, and how many of these the predictions order as the times do. */
  lemma ReportIs(candidates: seq<Candidate>, predicted: Vec) returns (cells: seq<string>)
    requires Scored(candidates, predicted, [])
    ensures CellsAre(candidates, cells) && ListsAre(candidates, predicted, cells, ReportOf(candidates, predicted))
    ensures ReportOf(candidates, predicted).pairs == |AllPairs(candidates, predicted, false)|
    ensures ReportOf(candidates, predicted).correct == |AllPairs(candidates, predicted, true)|
  {
    cells := CellsOf(candidates);
    CellsOfAre(candidates);
    CellsAreDistinct(candidates, cells);
    ReportLists(candidates, predicted, cells);
    ReportCounts(candidates, predicted, cells);
    hide ReportOn, CellsOf, Counts;
    forall right: bool
      ensures PairsIn(candidates, predicted, right, cells) == AllPairs(candidates, predicted, right)
    {
      forall i: nat | i < |candidates| ensures candidates[i].cell in cells {
        assert In(candidates, candidates[i].cell, i);
      }
    }
  }

  lemma CellsAreDistinct(candidates: seq<Candidate>, cells: seq<string>)
    requires CellsAre(candidates, cells)
    ensures Distinct(cells)
  {
    forall j, k | 0 <= j < k < |cells| ensures cells[j] != cells[k] {
      assert ComesFirst(candidates, cells[j], cells[k]);
    }
  }

  ghost function AllPairs(candidates: seq<Candidate>, predicted: Vec, right: bool): set<(nat, nat)>
    requires |predicted| == |candidates|
  {
    set i: nat, k: nat | 0 <= i < k < |candidates| && candidates[i].cell == candidates[k].cell
                         && Counts(candidates, predicted, right, i, k) :: (i, k)
  }

  ghost function Regrets(cells: seq<CellReport>): seq<real> {
    seq(|cells|, k requires 0 <= k < |cells| => cells[k].regret)
  }

  /** The percentage of the pairs that are out of order; zero if there are no pairs. */
  ghost predicate DisorderIs(disorder: real, pairs: nat, correct: nat) {
    if pairs == 0 then disorder == 0.0 else disorder * pairs as real == (pairs - correct) as real * 100.0
  }

  /** The loss is what the regrets add up to, and a twentieth of the percentage of pairs out of order. */
  lemma LossIs(candidates: seq<Candidate>, predicted: Vec) returns (disorder: real)
    requires Scored(candidates, predicted, [])
    ensures var report := ReportOf(candidates, predicted);
      && SelectionLoss(candidates, predicted) * 20.0 == SumOf(Regrets(report.cells)) * 20.0 + disorder
      && DisorderIs(disorder, report.pairs, report.correct)
  {
    var report := ReportOf(candidates, predicted);
    disorder := Disorder(report);
    LossInParts(candidates, predicted);
    RegretIsSum(report.cells);
    DisorderOf(report);
    hide *;
  }

  lemma LossInParts(candidates: seq<Candidate>, predicted: Vec)
    requires Scored(candidates, predicted, [])
    ensures SelectionLoss(candidates, predicted) * 20.0 ==
      Regret(ReportOf(candidates, predicted).cells) * 20.0 + Disorder(ReportOf(candidates, predicted))
  {
    hide ReportOf, Regret, Disorder;
  }

  lemma DisorderOf(report: Report)
    ensures DisorderIs(Disorder(report), report.pairs, report.correct)
  {
    if report.pairs != 0 {
      PartOf(report.correct as real, report.pairs as real);
    }
  }

  lemma PartOf(part: real, whole: real)
    requires whole > 0.0
    ensures (1.0 - part / whole) * 100.0 * whole == (whole - part) * 100.0
  {
    var q := part / whole;
    assert q * whole == part;
    assert (1.0 - q) * 100.0 * whole == (whole - q * whole) * 100.0;
  }

  ghost function SumOf(x: seq<real>): real {
    if x == [] then 0.0 else SumOf(x[..|x| - 1]) + x[|x| - 1]
  }

  lemma {:induction false} RegretIsSum(cells: seq<CellReport>)
    ensures Regret(cells) == SumOf(Regrets(cells))
  {
    if cells != [] {
      RegretIsSum(cells[..|cells| - 1]);
      assert Regrets(cells)[..|cells| - 1] == Regrets(cells[..|cells| - 1]);
    }
  }
}
