/** When no run of a generator of batches is stopped by a failure. */
module BatchSafety {
  import opened Gather
  import opened GatherVerdict
  import opened Wrappers
  import opened BatchRun
  import opened BatchFailures

  /** Whatever the waits and the concurrency, no failure stops the run. */
  ghost predicate NothingStops(results: seq<Outcome>, batchSize: nat, budget: real, skip: nat) {
    forall concurrent: nat, wait: Waiter | Proper(Run(results, batchSize, budget, concurrent, skip, wait)) ::
      !Stops(Run(results, batchSize, budget, concurrent, skip, wait))
  }

  // --------------------------------------------------- too few successes for a batch

  lemma {:induction false} WinsAreGroups(results: seq<Outcome>, order: seq<nat>)
    requires Within(order, |results|)
    ensures Shares(results, order, Wins) == |GroupsOf(results, order)| as real
  {
    if order != [] {
      WinsAreGroups(results, order[..|order| - 1]);
    }
  }

  lemma {:induction false} FewerGroups(results: seq<Outcome>, order: seq<nat>, k: nat)
    requires k <= |order|
    ensures |GroupsOf(results, order[..k])| <= |GroupsOf(results, order)|
    decreases |order|
  {
    if k < |order| {
      FewerGroups(results, order[..|order| - 1], k);
      assert order[..|order| - 1][..k] == order[..k];
    } else {
      assert order[..k] == order;
    }
  }

  lemma ReorderedCovers(a: seq<nat>, b: seq<nat>, from: nat, n: nat)
    requires Reordered(a, b) && Covers(a, from, n)
    ensures Covers(b, from, n)
  {
    forall k | 0 <= k < |b| ensures from <= b[k] < n {
      assert b[k] in b;
    }
  }

  /** The successes so far are too few for a batch. */
  ghost predicate Few(run: Run, waits: nat) {
    |GroupsOf(run.results, After(run, waits).taken)| < run.batchSize
  }

  ghost predicate Unyielded(run: Run, waits: nat) {
    After(run, waits).cuts == []
  }

  lemma FewBefore(run: Run, waits: nat, end: nat)
    requires Proper(run) && waits <= end && Few(run, end)
    ensures Few(run, waits)
  {
    hide Fair, Reordered;
    TakenWaitByWait(run, waits, end);
    PrefixGroups(run.results, After(run, waits).taken, After(run, end).taken);
  }

  /** As long as they are there is no yield. */
  lemma {:induction false} NothingYielded(run: Run, waits: nat, end: nat)
    requires Proper(run) && waits <= end && Few(run, end)
    ensures Unyielded(run, waits)
  {
    if waits == 0 {
      NoWaitYet(run);
    } else {
      hide Few, Proper, Unyielded;
      NothingYielded(run, waits - 1, end);
      FewBefore(run, waits, end);
      NoYieldYet(run, waits - 1);
    }
  }

  lemma PrefixGroups(results: seq<Outcome>, a: seq<nat>, b: seq<nat>)
    requires a <= b
    ensures |GroupsOf(results, a)| <= |GroupsOf(results, b)|
  {
    assert b[..|a|] == a;
    FewerGroups(results, b, |a|);
  }

  lemma NoYieldYet(run: Run, waits: nat)
    requires Unyielded(run, waits) && Few(run, waits + 1)
    ensures Unyielded(run, waits + 1)
  {
    hide Filled, GroupsOf, Limit, First;
    AfterOne(run, waits);
    FilledKeeps(After(run, waits), |run.results|, Limit(run));
  }

  lemma NothingGoesOver(run: Run)
    requires Proper(run) && Total(run.results, First(run), |run.results|, Wins) < run.batchSize as real
    requires !Over(run, Total(run.results, First(run), |run.results|, Upper))
    ensures !Stops(run)
  {
    hide After, Fair, First, Shares, Total, PassesOn, Over, GroupsOf, Reordered, OverBudget;
    var n := |run.results|;
    var end := RunEnds(run, 0);
    var p := After(run, end);
    TakenWaitByWait(run, end, end);
    ReorderedCovers(p.order, p.taken, First(run), n);
    SharesInAnyOrder(run.results, p.taken, First(run), n, Wins);
    SharesInAnyOrder(run.results, p.order, First(run), n, Upper);
    WinsAreGroups(run.results, p.taken);
    NothingYielded(run, end, end);
    forall k: nat | k < |p.order| ensures !PassesOn(run, p.order, p.cuts, k) {
      NoCutYet(k, p.cuts);
      PassesOnIff(run, p.order, p.cuts, k);
      assert p.order[0..k + 1] == p.order[..k + 1];
      PrefixBounds(run.results, p.order, k + 1);
      SharesBounds(run.results, p.order[..k + 1]);
      OverIs(run, Shares(run.results, p.order[..k + 1], COUNT));
      NotOver(run, Shares(run.results, p.order[..k + 1], COUNT), Shares(run.results, p.order, Upper));
    }
    FinishedIsSpared(run, end);
  }

  // ------------------------------------------------------------- the runs that stop

  /** With everything positive first the last failure sees all of it. */
  lemma PositiveFirstStops(run: Run)
    requires Over(run, Total(run.results, First(run), |run.results|, Upper)) && SomeFails(run.results, First(run))
    requires Limit(run) >= |run.results|
    requires var order := Arranged(run.results, First(run), Other, Negative);
      run.wait == InThisOrder(Members(order), order)
    ensures Stops(run)
  {
    hide After, First, Shares, Total, PassesOn, Over, Arranged, Those, Limit, InThisOrder, Fair, OverBudget;
    var n, from := |run.results|, First(run);
    var order := Arranged(run.results, from, Other, Negative);
    ArrangedCovers(run.results, from, Other, Negative);
    CoversWithin(order, from, n, n);
    SomeAreFailed(run.results, from);
    ArrangedLength(run.results, from, Other, Negative);
    AllInOneWait(run, order);
    Extremes(run.results, from);
    var k := |Those(run.results, from, n, Other)| + |Those(run.results, from, n, Failed)| - 1;
    CountAtFailure(run.results, from, Other, Negative, k);
    var p := After(run, 1);
    NoCutYet(k, p.cuts);
    PassesOnIff(run, order, p.cuts, k);
    assert order[0..k + 1] == order[..k + 1];
    OverIs(run, Shares(run.results, order[..k + 1], COUNT));
    assert PassedOn(run, 1, k);
  }

  lemma SomeAreFailed(results: seq<Outcome>, from: nat)
    requires SomeFails(results, from)
    ensures Those(results, from, |results|, Failed) != []
  {
    var t :| from <= t < |results| && results[t].Fails?;
    assert SortOf(results[t]) == Failed;
    assert t in Those(results, from, |results|, Failed);
  }

  lemma ArrangedLength(results: seq<Outcome>, from: nat, early: Sort, late: Sort)
    ensures |Arranged(results, from, early, late)| ==
      |Those(results, from, |results|, early)| + |Those(results, from, |results|, Failed)| +
        |Those(results, from, |results|, late)|
  {
  }

  /** The successes first, if these are pending, and then the failures. */
  ghost function WinsFirst(all: set<nat>, wins: seq<nat>, losses: seq<nat>): Waiter {
    (round, pending) =>
      if pending == all then Wait(wins, wins)
      else if pending == Members(losses) then Wait(losses, losses)
      else if pending == {} then Wait([], [])
      else Wait([Some1(pending)], [Some1(pending)])
  }

  ghost predicate Parts(all: set<nat>, wins: seq<nat>, losses: seq<nat>) {
    && Distinct(wins) && Distinct(losses) && wins != [] && losses != []
    && (forall t: nat :: t in all <==> t in wins || t in losses) && forall t: nat :: t in wins ==> t !in losses
  }

  lemma WinsFirstIsFair(all: set<nat>, wins: seq<nat>, losses: seq<nat>)
    requires Parts(all, wins, losses)
    ensures Fair(WinsFirst(all, wins, losses))
    ensures all != Members(losses) && all - Members(wins) == Members(losses)
  {
    assert wins[0] in wins;
  }

  /** Once a batch has been yielded the first failure is passed on. */
  lemma FailureAfterYield(run: Run, wins: seq<nat>, losses: seq<nat>)
    requires Within(wins, |run.results|) && Within(losses, |run.results|) && losses != [] && wins != []
    requires run.results[losses[0]].Fails?
    ensures Within(wins + losses, |run.results|)
    ensures PassesOn(run, wins + losses, [|wins|], |wins|)
  {
    var order, k := wins + losses, |wins|;
    PassesOnIff(run, order, [k], k);
    assert Since(k, [k]) == k && order[k..k + 1] == [losses[0]] && order[k] == losses[0];
    assert Shares(run.results, [losses[0]], COUNT) == 1.0 by {
      assert [losses[0]][..0] == [];
    }
    OverNone(1.0, run.batchSize);
  }

  lemma {:induction false} AllWin(results: seq<Outcome>, order: seq<nat>)
    requires Within(order, |results|) && forall k :: 0 <= k < |order| ==> results[order[k]].Succeeds?
    ensures |GroupsOf(results, order)| == |order|
  {
    if order != [] {
      AllWin(results, order[..|order| - 1]);
    }
  }

  /** All that succeed and all that fail. */
  ghost predicate Divides(run: Run, wins: seq<nat>, losses: seq<nat>) {
    && Within(wins, |run.results|) && Within(losses, |run.results|)
    && Parts(Members(wins + losses), wins, losses)
    && (forall t: nat :: t in wins || t in losses <==> First(run) <= t < |run.results|)
    && (forall k :: 0 <= k < |wins| ==> run.results[wins[k]].Succeeds?)
    && forall k :: 0 <= k < |losses| ==> run.results[losses[k]].Fails?
  }

  /** With that much concurrency all are started. */
  lemma AllStarted(run: Run)
    requires Limit(run) >= |run.results|
    ensures var p := Filled(After(run, 0), |run.results|, Limit(run));
      && p.next == |run.results| && p.order == p.cuts == []
      && forall t: nat :: t in p.pending <==> First(run) <= t < |run.results|
  {
    NoWaitYet(run);
    var none := After(run, 0);
    hide After, Limit, First;
    FillsAll(none, |run.results|, Limit(run));
    FilledKeeps(none, |run.results|, Limit(run));
  }

  lemma SameTasks(a: set<nat>, wins: seq<nat>, losses: seq<nat>)
    requires forall t: nat :: t in a <==> t in wins || t in losses
    ensures a == Members(wins + losses)
  {
  }

  lemma FirstCut(run: Run, p: Progress, wins: seq<nat>)
    requires p.order == [] && p.cuts == [] && p.taken == [] && |GroupsOf(run.results, wins)| == |wins| >= run.batchSize
    ensures var q := Cut(run, Waited(p, Wait(wins, wins)));
      q.order == wins && q.cuts == [|wins|] && q.pending == p.pending - Members(wins) && q.next == p.next
  {
    hide GroupsOf;
    assert p.order + wins == wins && p.taken + wins == wins;
    assert run.batchSize * (|p.cuts| + 1) == run.batchSize;
  }

  lemma FirstWait(run: Run, wins: seq<nat>, losses: seq<nat>)
    requires Divides(run, wins, losses) && Limit(run) >= |run.results| && |wins| >= run.batchSize > 0
    requires run.wait == WinsFirst(Members(wins + losses), wins, losses)
    ensures var p := After(run, 1);
      p.next == |run.results| && p.pending == Members(losses) && p.order == wins && p.cuts == [|wins|]
  {
    var all := Members(wins + losses);
    AllWin(run.results, wins);
    WinsFirstIsFair(all, wins, losses);
    AllStarted(run);
    NoWaitYet(run);
    FilledKeeps(After(run, 0), |run.results|, Limit(run));
    AfterOne(run, 0);
    var p := Filled(After(run, 0), |run.results|, Limit(run));
    SameTasks(p.pending, wins, losses);
    FirstCut(run, p, wins);
    assert wins[0] in wins + losses;
    assert run.wait(0, all) == Wait(wins, wins);
    hide *;
  }

  lemma SecondWait(run: Run, wins: seq<nat>, losses: seq<nat>)
    requires Divides(run, wins, losses) && Limit(run) >= |run.results| && |wins| >= run.batchSize > 0
    requires run.wait == WinsFirst(Members(wins + losses), wins, losses)
    ensures var q := After(run, 2);
      q.order == wins + losses && (q.cuts == [|wins|] || q.cuts == [|wins|] + [|wins + losses|])
  {
    var all := Members(wins + losses);
    WinsFirstIsFair(all, wins, losses);
    FirstWait(run, wins, losses);
    hide After, Limit, First, GroupsOf, Within;
    AfterOne(run, 1);
    assert losses[0] in Members(losses);
    assert run.wait(1, Members(losses)) == Wait(losses, losses);
  }

  /** With a whole batch of successes first, the first failure stops the run. */
  lemma WinsFirstStops(run: Run, wins: seq<nat>, losses: seq<nat>)
    requires Divides(run, wins, losses) && Limit(run) >= |run.results| && |wins| >= run.batchSize > 0
    requires run.wait == WinsFirst(Members(wins + losses), wins, losses)
    ensures Stops(run)
  {
    SecondWait(run, wins, losses);
    FailureAfterYield(run, wins, losses);
    hide After, Limit, First, Parts, InForce, Raises;
    var q, k := After(run, 2), |wins|;
    assert q.order[..k] == wins;
    LaterCuts(run, wins, [k], q.cuts);
    assert PassesOn(run, q.order, q.cuts, k);
    assert PassedOn(run, 2, k);
  }

  // --------------------------------------------------------------------- the verdict

  /** The successes in one order, and the failures. */
  ghost function Winning(results: seq<Outcome>, from: nat): seq<nat> {
    Those(results, from, |results|, Negative) + Those(results, from, |results|, Other)
  }

  lemma WinningAre(results: seq<Outcome>, from: nat)
    ensures var wins, losses := Winning(results, from), Those(results, from, |results|, Failed);
      && Within(wins, |results|) && Within(losses, |results|) && Distinct(wins) && Distinct(losses)
      && (forall k :: 0 <= k < |wins| ==> results[wins[k]].Succeeds?)
      && (forall k :: 0 <= k < |losses| ==> results[losses[k]].Fails?)
  {
  }

  lemma WinningAreAll(results: seq<Outcome>, from: nat)
    ensures var wins, losses := Winning(results, from), Those(results, from, |results|, Failed);
      && (forall t: nat :: t in wins || t in losses <==> from <= t < |results|)
      && forall t: nat :: t in wins ==> t !in losses
  {
    WinningAre(results, from);
    var n, wins, losses := |results|, Winning(results, from), Those(results, from, |results|, Failed);
    forall t: nat ensures t in wins || t in losses <==> from <= t < n {
      if from <= t < n {
        assert t in Those(results, from, n, SortOf(results[t]));
      }
    }
  }

  lemma TheyDivide(run: Run)
    requires SomeFails(run.results, First(run)) && Winning(run.results, First(run)) != []
    ensures Divides(run, Winning(run.results, First(run)), Those(run.results, First(run), |run.results|, Failed))
  {
    WinningAre(run.results, First(run));
    WinningAreAll(run.results, First(run));
    SomeAreFailed(run.results, First(run));
    hide Those, Winning, SortOf, First;
  }

  /** With enough successes for a batch they can all come before the failures. */
  lemma EnoughWinsStop(run: Run)
    requires SomeFails(run.results, First(run)) && Limit(run) >= |run.results| && run.batchSize > 0
    requires Total(run.results, First(run), |run.results|, Wins) >= run.batchSize as real
    requires var wins, losses := Winning(run.results, First(run)),
      Those(run.results, First(run), |run.results|, Failed);
      run.wait == WinsFirst(Members(wins + losses), wins, losses)
    ensures Stops(run)
  {
    WinningCount(run.results, First(run));
    TheyDivide(run);
    hide Those, Winning, First, Limit, WinsFirst, Total;
    WinsFirstStops(run, Winning(run.results, First(run)), Those(run.results, First(run), |run.results|, Failed));
  }

  lemma {:induction false} NoneWin(results: seq<Outcome>, order: seq<nat>)
    requires Within(order, |results|) && forall k :: 0 <= k < |order| ==> results[order[k]].Fails?
    ensures Shares(results, order, Wins) == 0.0
  {
    if order != [] {
      NoneWin(results, order[..|order| - 1]);
    }
  }

  lemma WinningCount(results: seq<Outcome>, from: nat)
    ensures Total(results, from, |results|, Wins) == |Winning(results, from)| as real
  {
    var n := |results|;
    var a, b, d := Those(results, from, n, Negative), Those(results, from, n, Failed), Those(results, from, n, Other);
    ArrangedCovers(results, from, Negative, Other);
    WinningAre(results, from);
    ThoseAre(results, from, Negative);
    ThoseAre(results, from, Other);
    TotalIs(results, from, a, b, d, Wins);
    NoneWin(results, b);
    AllWin(results, a + d);
    WinsAreGroups(results, a + d);
    SharesAdd(results, a, d, Wins);
    hide Those, SortOf, Total, Shares, GroupsOf;
  }

  /** No failure ever stops a run, whatever the waits and the concurrency, exactly if nothing fails, or the
      successes are too few for a batch and all failures, with all positive metrics called "exceptions",
      are within the budget. */
  lemma NothingStopsIff(results: seq<Outcome>, batchSize: nat, budget: real, skip: nat)
    requires batchSize > 0
    ensures NothingStops(results, batchSize, budget, skip) <==>
      var from := batchSize * skip;
      || !SomeFails(results, from)
      || (Total(results, from, |results|, Wins) < batchSize as real
          && !OverBudget(Total(results, from, |results|, Upper), Some(batchSize), budget))
  {
    hide Fair, Total, SomeFails, Stops, OverBudget;
    var from := batchSize * skip;
    if !SomeFails(results, from) || (Total(results, from, |results|, Wins) < batchSize as real
       && !OverBudget(Total(results, from, |results|, Upper), Some(batchSize), budget)) {
      forall concurrent: nat, wait: Waiter | Proper(Run(results, batchSize, budget, concurrent, skip, wait))
        ensures !Stops(Run(results, batchSize, budget, concurrent, skip, wait))
      {
        NoneStops(Run(results, batchSize, budget, concurrent, skip, wait));
      }
    } else {
      var run := SomeRunStops(results, batchSize, budget, skip);
    }
  }

  lemma NoneStops(run: Run)
    requires Proper(run)
    requires var from := run.batchSize * run.skip;
      || !SomeFails(run.results, from)
      || (Total(run.results, from, |run.results|, Wins) < run.batchSize as real
          && !Over(run, Total(run.results, from, |run.results|, Upper)))
    ensures !Stops(run)
  {
    hide Fair, Total, SomeFails, Stops, Over;
    FirstIs(run);
    hide First;
    if SomeFails(run.results, First(run)) {
      NothingGoesOver(run);
    } else {
      NothingToPassOn(run);
    }
  }

  /** A run that a failure stops. */
  lemma SomeRunStops(results: seq<Outcome>, batchSize: nat, budget: real, skip: nat) returns (run: Run)
    requires batchSize > 0 && SomeFails(results, batchSize * skip)
    requires Total(results, batchSize * skip, |results|, Wins) >= batchSize as real
      || OverBudget(Total(results, batchSize * skip, |results|, Upper), Some(batchSize), budget)
    ensures Proper(run) && Stops(run)
    ensures run == Run(results, batchSize, budget, run.concurrent, skip, run.wait)
  {
    hide Fair, Total, Arranged, First, Stops, Limit, SomeFails, InThisOrder, WinsFirst, OverBudget, Those, Winning;
    var from := batchSize * skip;
    if OverBudget(Total(results, from, |results|, Upper), Some(batchSize), budget) {
      var order := Arranged(results, from, Other, Negative);
      run := Run(results, batchSize, budget, |results| + 1, skip, InThisOrder(Members(order), order));
      ArrangedCovers(results, from, Other, Negative);
      InThisOrderIsFair(order);
      SkipsLess(run);
      PositiveFirstStops(run);
    } else {
      var wins, losses := Winning(results, from), Those(results, from, |results|, Failed);
      run := Run(results, batchSize, budget, |results| + 1, skip, WinsFirst(Members(wins + losses), wins, losses));
      SkipsLess(run);
      WinningCount(results, from);
      TheyDivide(run);
      WinsFirstIsFair(Members(wins + losses), wins, losses);
      EnoughWinsStop(run);
    }
  }
}
