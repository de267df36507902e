/** Which failures stop a generator of batches. */
module BatchFailures {
  import opened Gather
  import opened GatherVerdict
  import opened Wrappers
  import opened BatchRun

  /** How many had completed at the last yield. */
  function Since(n: nat, cuts: seq<nat>): (since: nat)
    ensures since <= n
  {
    if n == 0 || n in cuts then n else Since(n - 1, cuts)
  }

  /** The context counts what has completed since the last yield, against the budget until the first
      and against none after it. */
  lemma {:induction false} CountInForce(run: Run, order: seq<nat>, cuts: seq<nat>)
    requires Within(order, |run.results|)
    ensures var since := Since(|order|, cuts);
      && Within(order[since..], |run.results|)
      && Sum(InForce(run, order, cuts).sums, EXCEPTIONS) == Shares(run.results, order[since..], COUNT)
      && InForce(run, order, cuts).budget == if since == 0 then run.budget else 0.0
  {
    var n := |order|;
    if order != [] && n !in cuts {
      var before, last := order[..n - 1], run.results[order[n - 1]];
      CountInForce(run, before, cuts);
      var since := Since(n, cuts);
      assert since == Since(n - 1, cuts);
      hide Completed, Share, GroupShare, Sum, Since;
      SharesLast(run.results, order, since);
      CompletedAdds(InForce(run, before, cuts), last);
    }
  }

  lemma SharesLast(results: seq<Outcome>, order: seq<nat>, since: nat)
    requires Within(order, |results|) && since < |order|
    ensures var n := |order| - 1;
      && Within(order[since..], |results|) && Within(order[..n][since..], |results|)
      && Shares(results, order[since..], COUNT) ==
           Shares(results, order[..n][since..], COUNT) + Share(results[order[n]], COUNT)
  {
    var n := |order| - 1;
    assert order[since..][..n - since] == order[..n][since..];
  }

  lemma CompletedAdds(c: Context, o: Outcome)
    ensures Sum(Completed(c, o).sums, EXCEPTIONS) == Sum(c.sums, EXCEPTIONS) + Share(o, COUNT)
  {
    if o.Succeeds? {
      GroupAdds(c, o.group, EXCEPTIONS);
    }
  }

  lemma FailureRaisesIff(c: Context, o: Outcome)
    ensures Raises(c, o) <==> o.Fails? && OverBudget(Sum(c.sums, EXCEPTIONS) + Share(o, COUNT), c.total, c.budget)
  {
    hide OverBudget;
  }

  /** A completion is passed on exactly if it is a failure and the count since the last yield, with it,
      is over the budget: the given one before the first yield, none after it. */
  lemma PassesOnIff(run: Run, order: seq<nat>, cuts: seq<nat>, k: nat)
    requires Within(order, |run.results|) && k < |order|
    ensures var since := Since(k, cuts);
      PassesOn(run, order, cuts, k) <==>
        && run.results[order[k]].Fails?
        && OverBudget(Shares(run.results, order[since..k + 1], COUNT), Some(run.batchSize),
                      if since == 0 then run.budget else 0.0)
  {
    CountInForce(run, order[..k], cuts);
    hide InForce, OverBudget, Since, Sum, Shares, Share;
    var c, since := InForce(run, order[..k], cuts), Since(k, cuts);
    assert order[..k + 1][..k] == order[..k] && order[..k + 1][since..] == order[since..k + 1];
    SharesLast(run.results, order[..k + 1], since);
    FailureRaisesIff(c, run.results[order[k]]);
  }

  /** So much is over the budget that the run was given. */
  predicate Over(run: Run, count: real) {
    OverBudget(count, Some(run.batchSize), run.budget)
  }

  lemma OverGrows(run: Run, few: real, many: real)
    requires few <= many && Over(run, few)
    ensures Over(run, many)
  {
    OverBudgetGrows(few, many, Some(run.batchSize), run.budget);
  }

  lemma OverNone(count: real, size: nat)
    ensures OverBudget(count, Some(size), 0.0) <==> count > 0.0
  {
  }

  /** A run that passes nothing on has had no more failures than the budget and the negative metrics allow:
      before a yield as the budget says, and after it the negative metrics make up for all. */
  lemma {:induction false} SparedIsLow(run: Run, order: seq<nat>, cuts: seq<nat>, k: nat)
    requires Spared(run, order, cuts) && k <= |order| && run.budget >= 0.0
    ensures !Over(run, Shares(run.results, order[..k], Lower))
  {
    hide PassesOn, Share, Over, OverBudget;
    NothingIsOver(run);
    if k > 0 {
      var last := run.results[order[k - 1]];
      if last.Succeeds? {
        SparedIsLow(run, order, cuts, k - 1);
        ShareBounds(last);
        assert order[..k][..k - 1] == order[..k - 1];
        NotOver(run, Shares(run.results, order[..k], Lower), Shares(run.results, order[..k - 1], Lower));
      } else {
        var since := Since(k - 1, cuts);
        SparedIsLow(run, order, cuts, since);
        PassesOnIff(run, order, cuts, k - 1);
        SharesBounds(run.results, order[since..k]);
        SharesAdd(run.results, order[..since], order[since..k], Lower);
        assert order[..since] + order[since..k] == order[..k];
        OverNone(Shares(run.results, order[since..k], COUNT), run.batchSize);
        OverIs(run, Shares(run.results, order[since..k], COUNT));
        NotOver(run, Shares(run.results, order[..k], Lower),
                if since ==
                  0 then Shares(run.results, order[since..k], COUNT) else Shares(run.results, order[..since], Lower));
      }
    }
  }

  lemma NotOver(run: Run, few: real, many: real)
    requires few <= many && !Over(run, many)
    ensures !Over(run, few)
  {
    if Over(run, few) {
      OverGrows(run, few, many);
    }
  }

  lemma OverIs(run: Run, count: real)
    ensures Over(run, count) == OverBudget(count, Some(run.batchSize), run.budget)
  {
  }

  lemma NothingIsOver(run: Run)
    requires run.budget >= 0.0
    ensures !Over(run, 0.0)
  {
  }

  // ------------------------------------------------------ when one failure is enough

  ghost predicate SomeFails(results: seq<Outcome>, from: nat) {
    exists t :: from <= t < |results| && results[t].Fails?
  }

  /** Whatever the waits and the concurrency, the run stops exactly if some group fails. */
  ghost predicate AnyFailureStops(results: seq<Outcome>, batchSize: nat, budget: real, skip: nat) {
    forall concurrent: nat, wait: Waiter | Proper(Run(results, batchSize, budget, concurrent, skip, wait)) ::
      Stops(Run(results, batchSize, budget, concurrent, skip, wait)) <==> SomeFails(results, batchSize * skip)
  }

  /** Without a failure nothing is passed on. */
  lemma NothingToPassOn(run: Run)
    requires Proper(run) && !SomeFails(run.results, First(run))
    ensures !Stops(run)
  {
    hide After, Fair, First;
    forall waits: nat, k: nat ensures !PassedOn(run, waits, k) {
      AfterTracks(run, waits);
      var p := After(run, waits);
      assert k < |p.order| ==> p.order[k] in p.order;
    }
  }

  /** With failures that the negative metrics do not make up for, something is. */
  lemma SomethingIsPassedOn(run: Run)
    requires Proper(run) && run.budget >= 0.0 && Over(run, Total(run.results, First(run), |run.results|, Lower))
    ensures Stops(run)
  {
    hide After, Fair, First, Shares, Total, PassesOn, Over;
    var end := RunEnds(run, 0);
    var p := After(run, end);
    SharesInAnyOrder(run.results, p.order, First(run), |run.results|, Lower);
    assert p.order[..|p.order|] == p.order;
    if Spared(run, p.order, p.cuts) {
      SparedIsLow(run, p.order, p.cuts, |p.order|);
    } else {
      var k: nat :| k < |p.order| && PassesOn(run, p.order, p.cuts, k);
      assert PassedOn(run, end, k);
    }
  }

  /** Complete in this order if these are pending, else one by one. */
  ghost function InThisOrder(all: set<nat>, order: seq<nat>): Waiter {
    (round, pending) =>
      if pending == all then Wait(order, order)
      else if pending == {} then Wait([], [])
      else Wait([Some1(pending)], [Some1(pending)])
  }

  ghost function Some1(pending: set<nat>): (t: nat)
    requires pending != {}
    ensures t in pending
  {
    var t :| t in pending; t
  }

  lemma {:induction false} FillsAll(p: Progress, n: nat, limit: nat)
    requires |p.pending| + n <= limit + p.next && p.next <= n
    ensures Filled(p, n, limit).next == n
    ensures forall i: nat :: i in Filled(p, n, limit).pending <==> i in p.pending || p.next <= i < n
    decreases n - p.next
  {
    if p.next < n {
      FillsAll(p.(next := p.next + 1, pending := p.pending + {p.next}), n, limit);
    }
  }

  /** With that much concurrency all are started, and complete in this order, before the first yield. */
  lemma AllInOneWait(run: Run, order: seq<nat>)
    requires Covers(order, First(run), |run.results|) && order != [] && Limit(run) >= |run.results|
    requires run.wait == InThisOrder(Members(order), order)
    ensures var p := After(run, 1);
      Finished(run, p) && p.order == order && (p.cuts == [] || p.cuts == [|order|])
  {
    hide After, Limit, InThisOrder, First, Cut;
    var none := Progress(First(run), {}, [], [], []);
    FillsAll(none, |run.results|, Limit(run));
    FilledKeeps(none, |run.results|, Limit(run));
    NoWaitYet(run);
    AfterOne(run, 0);
    var p := Filled(none, |run.results|, Limit(run));
    hide Filled;
    assert order[0] in Members(order);
    assert p.pending == Members(order) by {
      forall i: nat ensures i in p.pending <==> i in Members(order) {
      }
    }
    AllAtOnce(order, 0);
    CutIs(run, Waited(p, Wait(order, order)));
    assert [] + order == order;
  }

  lemma AllAtOnce(order: seq<nat>, round: nat)
    ensures InThisOrder(Members(order), order)(round, Members(order)) == Wait(order, order)
  {
  }

  lemma CutIs(run: Run, p: Progress)
    requires p.cuts == []
    ensures Cut(run, p).cuts == [] || Cut(run, p).cuts == [|p.order|]
    ensures Cut(run, p) == p.(cuts := Cut(run, p).cuts)
  {
    hide GroupsOf;
  }

  lemma {:induction false} NoCutYet(k: nat, cuts: seq<nat>)
    requires forall m :: 0 < m <= k ==> m !in cuts
    ensures Since(k, cuts) == 0
  {
    if k > 0 {
      NoCutYet(k - 1, cuts);
    }
  }

  lemma InThisOrderIsFair(order: seq<nat>)
    requires Distinct(order)
    ensures Fair(InThisOrder(Members(order), order))
  {
  }

  /** With everything negative first and no yield in between all failures are spared. */
  lemma NegativeFirstSpares(run: Run, order: seq<nat>, cuts: seq<nat>)
    requires !Over(run, Total(run.results, First(run), |run.results|, Lower))
    requires order == Arranged(run.results, First(run), Negative, Other)
    requires cuts == [] || cuts == [|order|]
    ensures Spared(run, order, cuts)
  {
    hide PassesOn, Arranged, Shares, Total, Those, First, Over;
    var from := First(run);
    ArrangedCovers(run.results, from, Negative, Other);
    Extremes(run.results, from);
    CoversWithin(order, from, |run.results|, |run.results|);
    forall k: nat | k < |order| ensures !PassesOn(run, order, cuts, k) {
      NoCutYet(k, cuts);
      PassesOnIff(run, order, cuts, k);
      CountAtFailure(run.results, from, Negative, Other, k);
      assert order[0..k + 1] == order[..k + 1];
      OverIs(run, Shares(run.results, order[..k + 1], COUNT));
      hide OverBudget;
      if run.results[order[k]].Fails? {
        NotOver(run, Shares(run.results, order[..k + 1], COUNT), Total(run.results, from, |run.results|, Lower));
      }
    }
  }

  lemma StartedAtOnceSpares(run: Run, order: seq<nat>)
    requires !Over(run, Total(run.results, First(run), |run.results|, Lower))
    requires order == Arranged(run.results, First(run), Negative, Other) && order != []
    requires Limit(run) >= |run.results| && run.wait == InThisOrder(Members(order), order)
    ensures !Stops(run)
  {
    ArrangedCovers(run.results, First(run), Negative, Other);
    hide *;
    AllInOneWait(run, order);
    NegativeFirstSpares(run, order, After(run, 1).cuts);
    FinishedIsSpared(run, 1);
  }

  lemma ArrangedIsFair(results: seq<Outcome>, from: nat)
    ensures var order := Arranged(results, from, Negative, Other);
      Fair(InThisOrder(Members(order), order)) && (SomeFails(results, from) ==> order != [])
  {
    var order := Arranged(results, from, Negative, Other);
    ArrangedCovers(results, from, Negative, Other);
    hide Arranged;
    InThisOrderIsFair(order);
  }

  /** So there are waits and a concurrency with which failures do not stop the run. */
  lemma FailuresCanBeSpared(results: seq<Outcome>, batchSize: nat, budget: real, skip: nat) returns (run: Run)
    requires batchSize > 0 && SomeFails(results, batchSize * skip)
    requires !OverBudget(Total(results, batchSize * skip, |results|, Lower), Some(batchSize), budget)
    ensures Proper(run) && !Stops(run)
    ensures run == Run(results, batchSize, budget, run.concurrent, skip, run.wait)
  {
    hide Fair, Total, Arranged, First, Stops, Limit, SomeFails, InThisOrder, OverBudget;
    var order := Arranged(results, batchSize * skip, Negative, Other);
    run := Run(results, batchSize, budget, |results| + 1, skip, InThisOrder(Members(order), order));
    ArrangedIsFair(results, batchSize * skip);
    SkipsLess(run);
    StartedAtOnceSpares(run, order);
  }

  lemma SkipsLess(run: Run)
    requires SomeFails(run.results, run.batchSize * run.skip) && run.batchSize > 0 &&
      run.concurrent == |run.results| + 1
    ensures First(run) == run.batchSize * run.skip && Limit(run) >= |run.results|
  {
    Enough(run.batchSize, |run.results|);
  }

  lemma Enough(size: nat, n: nat)
    requires size > 0
    ensures size * (n + 1) >= n
  {
    assert size * (n + 1) == (size - 1) * (n + 1) + (n + 1);
  }

  lemma FirstIs(run: Run)
    ensures SomeFails(run.results, run.batchSize * run.skip) == SomeFails(run.results, First(run))
    ensures forall w ::
      Total(run.results, run.batchSize * run.skip, |run.results|, w) == Total(run.results, First(run), |run.results|, w)
  {
  }

  /** Some failure stops a run whenever there is one, whatever the waits and the concurrency, exactly if
      nothing fails or all failures together, less what all negative metrics called "exceptions" make up
      for, are over the budget.  Without a budget that is: if they are more than those make up for. */
  lemma AnyFailureStopsIff(results: seq<Outcome>, batchSize: nat, budget: real, skip: nat)
    requires batchSize > 0 && budget >= 0.0
    ensures AnyFailureStops(results, batchSize, budget, skip) <==>
      || !SomeFails(results, batchSize * skip)
      || OverBudget(Total(results, batchSize * skip, |results|, Lower), Some(batchSize), budget)
  {
    hide Fair, Total, SomeFails, Stops, OverBudget;
    var from := batchSize * skip;
    if !SomeFails(results, from) || OverBudget(Total(results, from, |results|, Lower), Some(batchSize), budget) {
      forall concurrent: nat, wait: Waiter | Proper(Run(results, batchSize, budget, concurrent, skip, wait))
        ensures Stops(Run(results, batchSize, budget, concurrent, skip, wait)) <==> SomeFails(results, from)
      {
        OneFailureStops(Run(results, batchSize, budget, concurrent, skip, wait));
      }
    } else {
      var run := FailuresCanBeSpared(results, batchSize, budget, skip);
    }
  }

  lemma OneFailureStops(run: Run)
    requires Proper(run) && run.budget >= 0.0
    requires var from := run.batchSize * run.skip;
      !SomeFails(run.results, from) || Over(run, Total(run.results, from, |run.results|, Lower))
    ensures Stops(run) <==> SomeFails(run.results, run.batchSize * run.skip)
  {
    hide Fair, First, Total, SomeFails, Stops, Over;
    FirstIs(run);
    if SomeFails(run.results, First(run)) {
      SomethingIsPassedOn(run);
    } else {
      NothingToPassOn(run);
    }
  }

  /** Without a metric called "exceptions" only failures count. */
  lemma {:induction false} TotalIsFailures(results: seq<Outcome>, from: nat, n: nat)
    requires NoClash(results) && n <= |results|
    ensures Total(results, from, n, Lower) >= 0.0
    ensures Total(results, from, n, Lower) > 0.0 <==> exists t :: from <= t < n && results[t].Fails?
  {
    if n > from {
      TotalIsFailures(results, from, n - 1);
      if results[n - 1].Succeeds? {
        NoGroupShare(results[n - 1].group);
      }
    }
  }

  lemma NoClashAnyFailureStops(run: Run)
    requires Proper(run) && run.budget == 0.0 && NoClash(run.results)
    ensures Stops(run) <==> SomeFails(run.results, run.batchSize * run.skip)
  {
    TotalIsFailures(run.results, run.batchSize * run.skip, |run.results|);
    OverNone(Total(run.results, run.batchSize * run.skip, |run.results|, Lower), run.batchSize);
    OneFailureStops(run);
    hide NoClash, Stops, Total;
  }
}
