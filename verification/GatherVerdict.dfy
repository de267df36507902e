/** When gathering raises, and when that depends on the order of completion. */
module GatherVerdict {
  import opened Gather
  import opened Wrappers

  const COUNT: Weighing := Named(EXCEPTIONS)

  /** Some completion raises. */
  ghost predicate RaisesIn(c: Context, results: seq<Outcome>, order: seq<nat>)
    requires Within(order, |results|)
  {
    exists k :: 0 <= k < |order| && RaisesAt(c, results, order, k)
  }

  /** The verdict by the number of failures alone. */
  ghost predicate TooManyFailures(c: Context, results: seq<Outcome>) {
    Failures(results) > 0 && OverBudget(Failures(results) as real, c.total, c.budget)
  }

  function Failures(results: seq<Outcome>): nat {
    if results == [] then 0
    else Failures(results[..|results| - 1]) + if results[|results| - 1].Fails? then 1 else 0
  }

  /** The failures and all negative, or all positive, metrics called "exceptions". */
  function Extreme(results: seq<Outcome>, w: Weighing): real {
    Total(results, 0, |results|, w)
  }

  /** The verdict is the same in every order of completion, and the one by failures alone. */
  ghost predicate OrderIsNoMatter(c: Context, results: seq<Outcome>) {
    forall order | Permutes(order, |results|) :: RaisesIn(c, results, order) == TooManyFailures(c, results)
  }

  lemma OverBudgetGrows(few: real, many: real, total: Option<nat>, budget: real)
    requires few <= many && OverBudget(few, total, budget)
    ensures OverBudget(many, total, budget)
  {
    if total.Some? && total.value > 0 {
      var n := total.value as real;
      assert many / n - few / n == (many - few) / n;
    }
  }

  /** What raises at one place: a failure, when the count so far is over the budget. */
  lemma RaisesAtIff(results: seq<Outcome>, order: seq<nat>, c: Context, k: nat)
    requires Within(order, |results|) && k < |order| && Sum(c.sums, EXCEPTIONS) == 0.0
    ensures RaisesAt(c, results, order, k) <==>
      results[order[k]].Fails? && OverBudget(Shares(results, order[..k + 1], COUNT), c.total, c.budget)
  {
    assert order[..k + 1][..k] == order[..k];
    ReplayAdds(c, results, order[..k], EXCEPTIONS);
    hide OverBudget;
  }

  // -------------------------------------------------------------- bounds on the count

  lemma ShareBounds(o: Outcome)
    ensures Share(o, Lower) <= Share(o, COUNT) <= Share(o, Upper) && Share(o, Upper) >= 0.0
    ensures o.Fails? ==> Share(o, Lower) == Share(o, COUNT) == Share(o, Upper) == 1.0
    ensures o.Succeeds? ==> Share(o, Lower) <= 0.0
  {
  }

  lemma {:induction false} SharesBounds(results: seq<Outcome>, order: seq<nat>)
    requires Within(order, |results|)
    ensures Shares(results, order, Lower) <= Shares(results, order, COUNT) <= Shares(results, order, Upper)
  {
    if order != [] {
      SharesBounds(results, order[..|order| - 1]);
      ShareBounds(results[order[|order| - 1]]);
      hide Share;
    }
  }

  lemma {:induction false} FailuresBetween(results: seq<Outcome>, n: nat)
    requires n <= |results|
    ensures Total(results, 0, n, Lower) <= Failures(results[..n]) as real <= Total(results, 0, n, Upper)
    ensures Failures(results[..n]) > 0 <==> exists i | 0 <= i < n :: results[i].Fails?
  {
    if n > 0 {
      FailuresBetween(results, n - 1);
      ShareBounds(results[n - 1]);
      assert results[..n][..n - 1] == results[..n - 1];
      hide Share;
    }
  }

  /** Before the last failure has completed the least has, and at no time more than the most. */
  lemma {:induction false} PrefixBounds(results: seq<Outcome>, order: seq<nat>, k: nat)
    requires Within(order, |results|) && k <= |order|
    ensures Shares(results, order[..k], Upper) <= Shares(results, order, Upper)
    ensures (forall j | k <= j < |order| :: results[order[j]].Succeeds?) ==>
      Shares(results, order, Lower) <= Shares(results, order[..k], Lower)
    decreases |order|
  {
    if k < |order| {
      var n := |order| - 1;
      PrefixBounds(results, order[..n], k);
      assert order[..n][..k] == order[..k];
      ShareBounds(results[order[n]]);
      hide Share;
    } else {
      assert order[..k] == order;
    }
  }

  lemma {:induction false} LastFailure(results: seq<Outcome>, order: seq<nat>) returns (k: nat)
    requires Within(order, |results|) && exists j | 0 <= j < |order| :: results[order[j]].Fails?
    ensures k < |order| && results[order[k]].Fails? && forall j | k < j < |order| :: results[order[j]].Succeeds?
  {
    var n := |order| - 1;
    if results[order[n]].Fails? {
      k := n;
    } else {
      k := LastFailure(results, order[..n]);
    }
  }

  /** Whatever the order: over the budget at the least, gathering raises, and within it at the most,
      it does not. */
  lemma SureVerdicts(c: Context, results: seq<Outcome>, order: seq<nat>)
    requires Permutes(order, |results|) && Sum(c.sums, EXCEPTIONS) == 0.0
    ensures Failures(results) > 0 && OverBudget(Extreme(results, Lower), c.total, c.budget) ==>
      RaisesIn(c, results, order)
    ensures !OverBudget(Extreme(results, Upper), c.total, c.budget) || Failures(results) == 0 ==>
      !RaisesIn(c, results, order)
  {
    var n := |results|;
    hide Replay, RaisesAt, OverBudget, Shares, Share, Failures;
    assert results[..n] == results;
    FailuresBetween(results, n);
    PermutesCovers(order, n);
    SharesInAnyOrder(results, order, 0, n, Lower);
    SharesInAnyOrder(results, order, 0, n, Upper);
    if Failures(results) > 0 && OverBudget(Extreme(results, Lower), c.total, c.budget) {
      var i :| 0 <= i < n && results[i].Fails?;
      assert i in order;
      var k := LastFailure(results, order);
      PrefixBounds(results, order, k + 1);
      SharesBounds(results, order[..k + 1]);
      OverBudgetGrows(Extreme(results, Lower), Shares(results, order[..k + 1], COUNT), c.total, c.budget);
      RaisesAtIff(results, order, c, k);
    }
    forall k | 0 <= k < n && RaisesAt(c, results, order, k)
      ensures OverBudget(Extreme(results, Upper), c.total, c.budget) && Failures(results) > 0
    {
      RaisesAtIff(results, order, c, k);
      PrefixBounds(results, order, k + 1);
      SharesBounds(results, order[..k + 1]);
      OverBudgetGrows(Shares(results, order[..k + 1], COUNT), Extreme(results, Upper), c.total, c.budget);
    }
  }

  // --------------------------------------------------------------- the extreme orders

  datatype Sort = Failed | Negative | Other

  function SortOf(o: Outcome): Sort {
    if o.Fails? then Failed else if GroupShare(o.group, EXCEPTIONS) < 0.0 then Negative else Other
  }

  /** The results from one on and below n that are of one sort, in input order. */
  ghost function Those(results: seq<Outcome>, from: nat, n: nat, sort: Sort): (those: seq<nat>)
    requires n <= |results|
    ensures forall k :: 0 <= k < |those| ==> from <= those[k] < n && SortOf(results[those[k]]) == sort
    ensures forall j, k :: 0 <= j < k < |those| ==> those[j] != those[k]
    ensures forall i: nat | from <= i < n && SortOf(results[i]) == sort :: i in those
  {
    if n <= from then []
    else Those(results, from, n - 1, sort) + if SortOf(results[n - 1]) == sort then [n - 1] else []
  }

  lemma {:induction false} ThoseAreAll(results: seq<Outcome>, n: nat)
    requires n <= |results|
    ensures |Those(results, 0, n, Failed)| + |Those(results, 0, n, Negative)| + |Those(results, 0, n, Other)| == n
  {
    if n > 0 {
      ThoseAreAll(results, n - 1);
    }
  }

  /** All of one sort, then the failures, then the rest. */
  ghost function Arranged(results: seq<Outcome>, from: nat, early: Sort, late: Sort): seq<nat> {
    Those(results, from, |results|, early) + Those(results, from, |results|, Failed) +
      Those(results, from, |results|, late)
  }

  predicate Opposite(early: Sort, late: Sort) {
    (early == Negative && late == Other) || (early == Other && late == Negative)
  }

  lemma ArrangedCovers(results: seq<Outcome>, from: nat, early: Sort, late: Sort)
    requires Opposite(early, late)
    ensures Covers(Arranged(results, from, early, late), from, |results|)
  {
    var n := |results|;
    var order, a, b := Arranged(results, from, early, late), |Those(results, from, n, early)|,
      |Those(results, from, n, Failed)|;
    forall k | 0 <= k < |order| ensures from <= order[k] < n
      && SortOf(results[order[k]]) == (if k < a then early else if k < a + b then Failed else late)
    {
    }
    forall i: nat | from <= i < n ensures i in order {
      assert i in Those(results, from, n, SortOf(results[i]));
    }
    hide SortOf;
  }

  lemma ArrangedPermutes(results: seq<Outcome>, early: Sort, late: Sort)
    requires Opposite(early, late)
    ensures Permutes(Arranged(results, 0, early, late), |results|)
  {
    ArrangedCovers(results, 0, early, late);
    ThoseAreAll(results, |results|);
    hide Those;
  }

  lemma {:induction false} SharesAdd(results: seq<Outcome>, a: seq<nat>, b: seq<nat>, w: Weighing)
    requires Within(a, |results|) && Within(b, |results|)
    ensures Shares(results, a + b, w) == Shares(results, a, w) + Shares(results, b, w)
  {
    if b == [] {
      assert a + b == a;
    } else {
      assert (a + b)[..|a + b| - 1] == a + b[..|b| - 1];
      SharesAdd(results, a, b[..|b| - 1], w);
    }
  }

  /** Negative ones and failures add the least they can, the others and failures the most, and the
      other way round nothing. */
  lemma {:induction false} SharesOfSort(results: seq<Outcome>, those: seq<nat>, sort: Sort)
    requires Within(those, |results|) && forall k :: 0 <= k < |those| ==> SortOf(results[those[k]]) == sort
    ensures sort != Other ==> Shares(results, those, COUNT) == Shares(results, those, Lower)
    ensures sort != Negative ==> Shares(results, those, COUNT) == Shares(results, those, Upper)
    ensures sort == Other ==> Shares(results, those, Lower) == 0.0
    ensures sort == Negative ==> Shares(results, those, Upper) == 0.0
    ensures sort == Failed ==> Shares(results, those, COUNT) == |those| as real
  {
    if those != [] {
      SharesOfSort(results, those[..|those| - 1], sort);
    }
  }

  lemma Prefixes(a: seq<nat>, b: seq<nat>, d: seq<nat>, k: nat)
    requires |a| <= k < |a| + |b|
    ensures (a + b + d)[..k + 1] == a + b[..k + 1 - |a|] && (a + b + d)[k] == b[k - |a|]
  {
  }

  lemma ThoseAre(results: seq<Outcome>, from: nat, sort: Sort)
    ensures var those := Those(results, from, |results|, sort);
      Within(those, |results|) && forall k :: 0 <= k < |those| ==> SortOf(results[those[k]]) == sort
  {
  }

  /** The count up to and with a failure, when one sort has come before all failures. */
  lemma CountAtFailure(results: seq<Outcome>, from: nat, early: Sort, late: Sort, k: nat)
    requires Opposite(early, late) && k < |Arranged(results, from, early, late)|
    ensures var a, b := Those(results, from, |results|, early), Those(results, from, |results|, Failed);
      var order := Arranged(results, from, early, late);
      && Within(order, |results|) && Within(a, |results|)
      && (results[order[k]].Fails? <==> |a| <= k < |a| + |b|)
      && (results[order[k]].Fails? ==>
          Shares(results, order[..k + 1], COUNT) == Shares(results, a, COUNT) + (k + 1 - |a|) as real)
  {
    hide Shares, Share, Those, SortOf;
    var n := |results|;
    var a, b, d := Those(results, from, n, early), Those(results, from, n, Failed), Those(results, from, n, late);
    ArrangedCovers(results, from, early, late);
    ThoseAre(results, from, early);
    ThoseAre(results, from, Failed);
    ThoseAre(results, from, late);
    FailedIsInTheMiddle(results, from, early, late, k);
    if |a| <= k < |a| + |b| {
      Prefixes(a, b, d, k);
      SharesAdd(results, a, b[..k + 1 - |a|], COUNT);
      SharesOfSort(results, b[..k + 1 - |a|], Failed);
    }
  }

  /** What all of them add at the least, or at the most. */
  lemma Extremes(results: seq<Outcome>, from: nat)
    ensures var n := |results|;
      var a, b, d := Those(results, from, n, Negative), |Those(results, from, n, Failed)|,
        Those(results, from, n, Other);
      && Within(a, n) && Within(d, n)
      && Total(results, from, n, Lower) == Shares(results, a, COUNT) + b as real
      && Total(results, from, n, Upper) == Shares(results, d, COUNT) + b as real
  {
    hide Shares, Share, Those, SortOf, Total;
    var n := |results|;
    var a, b, d := Those(results, from, n, Negative), Those(results, from, n, Failed), Those(results, from, n, Other);
    ArrangedCovers(results, from, Negative, Other);
    ThoseAre(results, from, Negative);
    ThoseAre(results, from, Failed);
    ThoseAre(results, from, Other);
    SharesOfSort(results, a, Negative);
    SharesOfSort(results, b, Failed);
    SharesOfSort(results, d, Other);
    TotalIs(results, from, a, b, d, Lower);
    TotalIs(results, from, a, b, d, Upper);
  }

  lemma TotalIs(results: seq<Outcome>, from: nat, a: seq<nat>, b: seq<nat>, d: seq<nat>, w: Weighing)
    requires Within(a, |results|) && Within(b, |results|) && Within(d, |results|)
    requires Covers(a + b + d, from, |results|)
    ensures Total(results, from, |results|, w) == Shares(results, a, w) + Shares(results, b, w) + Shares(results, d, w)
  {
    hide Shares, Total;
    SharesInAnyOrder(results, a + b + d, from, |results|, w);
    SharesAdd(results, a + b, d, w);
    SharesAdd(results, a, b, w);
  }

  lemma FailedIsInTheMiddle(results: seq<Outcome>, from: nat, early: Sort, late: Sort, k: nat)
    requires Opposite(early, late)
    requires k < |Arranged(results, from, early, late)| && Within(Arranged(results, from, early, late), |results|)
    ensures results[Arranged(results, from, early, late)[k]].Fails? <==>
      |Those(results, from, |results|, early)| <= k
        < |Those(results, from, |results|, early)| + |Those(results, from, |results|, Failed)|
  {
  }

  /** With everything negative first, no failure sees more than the least. */
  lemma LeastIsReached(c: Context, results: seq<Outcome>)
    requires Sum(c.sums, EXCEPTIONS) == 0.0 && !OverBudget(Extreme(results, Lower), c.total, c.budget)
    ensures Permutes(Arranged(results, 0, Negative, Other), |results|)
    ensures !RaisesIn(c, results, Arranged(results, 0, Negative, Other))
  {
    hide Shares, OverBudget, RaisesAt, Arranged, Total, Those;
    var order := Arranged(results, 0, Negative, Other);
    ArrangedPermutes(results, Negative, Other);
    Extremes(results, 0);
    forall k | 0 <= k < |results| ensures !RaisesAt(c, results, order, k) {
      RaisesAtIff(results, order, c, k);
      CountAtFailure(results, 0, Negative, Other, k);
      if results[order[k]].Fails? && OverBudget(Shares(results, order[..k + 1], COUNT), c.total, c.budget) {
        OverBudgetGrows(Shares(results, order[..k + 1], COUNT), Extreme(results, Lower), c.total, c.budget);
      }
    }
  }

  /** With everything negative last, the last failure sees the most. */
  lemma MostIsReached(c: Context, results: seq<Outcome>)
    requires Sum(c.sums, EXCEPTIONS) == 0.0 && Failures(results) > 0
    requires OverBudget(Extreme(results, Upper), c.total, c.budget)
    ensures Permutes(Arranged(results, 0, Other, Negative), |results|)
    ensures RaisesIn(c, results, Arranged(results, 0, Other, Negative))
  {
    hide Shares, OverBudget, RaisesAt, Arranged, Total, Those, Failures;
    var order := Arranged(results, 0, Other, Negative);
    ArrangedPermutes(results, Other, Negative);
    Extremes(results, 0);
    SomethingFailed(results, |results|);
    assert results[..|results|] == results;
    ThoseAreAll(results, |results|);
    var k := |Those(results, 0, |results|, Other)| + |Those(results, 0, |results|, Failed)| - 1;
    CountAtFailure(results, 0, Other, Negative, k);
    RaisesAtIff(results, order, c, k);
  }

  lemma {:induction false} SomethingFailed(results: seq<Outcome>, n: nat)
    requires n <= |results|
    ensures |Those(results, 0, n, Failed)| == Failures(results[..n])
  {
    if n > 0 {
      SomethingFailed(results, n - 1);
      assert results[..n][..n - 1] == results[..n - 1];
    }
  }

  /** The order of completion is no matter, and only the number of failures counts, exactly if there
      is no failure or the failures with all negative and with all positive metrics called
      "exceptions" are on the same side of the budget. */
  lemma OrderIsNoMatterIff(c: Context, results: seq<Outcome>)
    requires Sum(c.sums, EXCEPTIONS) == 0.0
    ensures OrderIsNoMatter(c, results) <==>
      Failures(results) == 0
      || (OverBudget(Extreme(results, Lower), c.total, c.budget) <==>
           OverBudget(Extreme(results, Upper), c.total, c.budget))
  {
    var n := |results|;
    hide Replay, RaisesAt, OverBudget, Shares, Share, Failures, Arranged;
    assert results[..n] == results;
    FailuresBetween(results, n);
    var low, high, mid := Extreme(results, Lower), Extreme(results, Upper), Failures(results) as real;
    if OverBudget(low, c.total, c.budget) {
      OverBudgetGrows(low, mid, c.total, c.budget);
      OverBudgetGrows(low, high, c.total, c.budget);
    }
    if OverBudget(mid, c.total, c.budget) {
      OverBudgetGrows(mid, high, c.total, c.budget);
    }
    forall order | Permutes(order, n)
      ensures Failures(results) > 0 && OverBudget(low, c.total, c.budget) ==> RaisesIn(c, results, order)
      ensures !OverBudget(high, c.total, c.budget) || Failures(results) == 0 ==> !RaisesIn(c, results, order)
    {
      SureVerdicts(c, results, order);
    }
    if Failures(results) > 0 && OverBudget(high, c.total, c.budget) && !OverBudget(low, c.total, c.budget) {
      LeastIsReached(c, results);
      MostIsReached(c, results);
    }
  }

  // ----------------------------------------------------------------- without a clash

  /** No trajectory has a metric of the name under which failures are counted. */
  ghost predicate NoClash(results: seq<Outcome>) {
    forall i | 0 <= i < |results| && results[i].Succeeds? :: forall t <- results[i].group :: EXCEPTIONS !in t.metrics
  }

  lemma {:induction false} NoGroupShare(group: Group)
    requires forall t <- group :: EXCEPTIONS !in t.metrics
    ensures GroupShare(group, EXCEPTIONS) == 0.0
  {
    if group != [] {
      NoGroupShare(group[..|group| - 1]);
    }
  }

  lemma {:induction false} SharesAreFailures(results: seq<Outcome>, n: nat, w: Weighing)
    requires NoClash(results) && n <= |results| && w in {COUNT, Lower, Upper}
    ensures Total(results, 0, n, w) == Failures(results[..n]) as real
  {
    if n > 0 {
      SharesAreFailures(results, n - 1, w);
      assert results[..n][..n - 1] == results[..n - 1];
      if results[n - 1].Succeeds? {
        NoGroupShare(results[n - 1].group);
      }
    }
  }

  /** Unless a trajectory has a metric called "exceptions", gathering raises in every order of
      completion exactly if there is a failure and all failures together are over the budget. */
  lemma RaisesIffOverBudget(results: seq<Outcome>, order: seq<nat>, c: Context)
    requires Permutes(order, |results|) && NoClash(results) && Sum(c.sums, EXCEPTIONS) == 0.0
    ensures RaisesIn(c, results, order) <==> TooManyFailures(c, results)
  {
    SharesAreFailures(results, |results|, Lower);
    SharesAreFailures(results, |results|, Upper);
    OrderIsNoMatterIff(c, results);
    assert OrderIsNoMatter(c, results);
  }

  /** With such a metric the order can decide: one failure and a budget of one, and gathering raises
      or not. */
  lemma ClashMakesOrderMatter() returns (results: seq<Outcome>, c: Context)
    ensures Sum(c.sums, EXCEPTIONS) == 0.0 && !OrderIsNoMatter(c, results)
    ensures Failures(results) == 1 && !OverBudget(1.0, c.total, c.budget)
  {
    var group := [Trajectory(0.0, map[EXCEPTIONS := 1.0])];
    results := [Succeeds(group), Fails];
    c := Context(Some(2), map[], map[], 1.0);
    assert group[..0] == [] && GroupShare([], EXCEPTIONS) == 0.0;
    assert GroupShare(group, EXCEPTIONS) == 1.0;
    assert results[..1] == [results[0]] && Failures([]) == 0 && Failures([results[0]]) == 0;
    assert Share(results[0], Lower) == 0.0 && Share(results[0], Upper) == 1.0;
    assert Total(results, 0, 0, Lower) == 0.0 && Total(results, 0, 0, Upper) == 0.0;
    assert Total(results, 0, 1, Lower) == 0.0 && Total(results, 0, 1, Upper) == 1.0;
    assert Extreme(results, Lower) == 1.0 && Extreme(results, Upper) == 2.0;
    OrderIsNoMatterIff(c, results);
  }
}
