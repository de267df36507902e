/** How the generator of batches goes on: tasks started in order and completing in any, batches yielded
    when there are enough successes, and the failures that are passed on. */
module BatchRun {
  import opened Gather
  import opened Wrappers

  /** The tasks that complete during a wait, in the order in which they complete, and the same tasks in the
      order in which their results are taken, which is that of a set. */
  datatype Wait = Wait(done: seq<nat>, taken: seq<nat>)

  /** What each wait for the pending tasks comes to. */
  type Waiter = (nat, set<nat>) -> Wait

  /** What a generator is made with. */
  datatype Run = Run(results: seq<Outcome>, batchSize: nat, budget: real, concurrent: nat, skip: nat, wait: Waiter)

  /** How far it has come: the next task to start, the tasks outstanding, the order of completion, the
      order in which the results were taken, and how many had completed at each yield. */
  datatype Progress = Progress(next: nat, pending: set<nat>, order: seq<nat>, taken: seq<nat>, cuts: seq<nat>)

  ghost predicate Distinct(s: seq<nat>) {
    forall j, k :: 0 <= j < k < |s| ==> s[j] != s[k]
  }

  /** The same tasks, each once, in two orders. */
  ghost predicate Reordered(a: seq<nat>, b: seq<nat>) {
    |a| == |b| && Distinct(a) && Distinct(b) && forall t: nat :: t in a <==> t in b
  }

  ghost predicate Chosen(w: Wait, pending: set<nat>) {
    w.done != [] && Reordered(w.done, w.taken) && forall k :: 0 <= k < |w.done| ==> w.done[k] in pending
  }

  /** Some pending task completes in every wait. */
  ghost predicate Fair(wait: Waiter) {
    forall round, pending :: pending != {} ==> Chosen(wait(round, pending), pending)
  }

  ghost predicate Proper(run: Run) {
    run.batchSize > 0 && run.concurrent > 0 && Fair(run.wait)
  }

  /** The first task that is not skipped. */
  function First(run: Run): (first: nat)
    ensures first <= |run.results|
  {
    if run.batchSize * run.skip <= |run.results| then run.batchSize * run.skip else |run.results|
  }

  function Limit(run: Run): nat {
    run.batchSize * run.concurrent
  }

  function Members(s: seq<nat>): set<nat> {
    set t | t in s
  }

  // ------------------------------------------------------------------- how a run goes

  /** The groups of those tasks that succeeded, in this order. */
  function GroupsOf(results: seq<Outcome>, order: seq<nat>): seq<Group> {
    if order == [] then []
    else
      var last := order[|order| - 1];
      GroupsOf(results, order[..|order| - 1])
      + if last < |results| && results[last].Succeeds? then [results[last].group] else []
  }

  /** Tasks are started in order while fewer than `limit` are outstanding. */
  function Filled(p: Progress, n: nat, limit: nat): Progress
    decreases n - p.next
  {
    if |p.pending| < limit && p.next < n
    then Filled(p.(next := p.next + 1, pending := p.pending + {p.next}), n, limit) else p
  }

  function Waited(p: Progress, w: Wait): Progress {
    p.(pending := p.pending - Members(w.done), order := p.order + w.done, taken := p.taken + w.taken)
  }

  /** A batch is yielded when there are enough successes for one more. */
  function Cut(run: Run, p: Progress): Progress {
    if |GroupsOf(run.results, p.taken)| >= run.batchSize * (|p.cuts| + 1) then p.(cuts := p.cuts + [|p.order|]) else p
  }

  /** A run after some waits, as long as no failure is passed on. */
  function After(run: Run, waits: nat): Progress {
    if waits == 0 then Progress(First(run), {}, [], [], [])
    else
      var p := Filled(After(run, waits - 1), |run.results|, Limit(run));
      if p.pending == {} then p else Cut(run, Waited(p, run.wait(waits - 1, p.pending)))
  }

  predicate Finished(run: Run, p: Progress) {
    p.next >= |run.results| && p.pending == {}
  }

  /** The budget is gone once a batch has been yielded. */
  function Opening(run: Run, budget: real): Context {
    Context(Some(run.batchSize), map[], map[], budget)
  }

  /** The context after these completions: what has completed since the last yield. */
  function InForce(run: Run, order: seq<nat>, cuts: seq<nat>): (c: Context)
    requires Within(order, |run.results|)
    ensures c.total == Some(run.batchSize) && (run.budget == 0.0 ==> c.budget == 0.0)
  {
    if order == [] then Opening(run, run.budget)
    else if |order| in cuts then Opening(run, 0.0)
    else Completed(InForce(run, order[..|order| - 1], cuts), run.results[order[|order| - 1]])
  }

  /** This completion is a failure that is passed on. */
  predicate PassesOn(run: Run, order: seq<nat>, cuts: seq<nat>, k: nat)
    requires Within(order, |run.results|) && k < |order|
  {
    Raises(InForce(run, order[..k], cuts), run.results[order[k]])
  }

  ghost predicate PassedOn(run: Run, waits: nat, k: nat) {
    var p := After(run, waits);
    Within(p.order, |run.results|) && k < |p.order| && PassesOn(run, p.order, p.cuts, k)
  }

  /** The run comes upon a failure that is passed on. */
  ghost predicate Stops(run: Run) {
    exists waits, k :: PassedOn(run, waits, k)
  }

  ghost predicate Spared(run: Run, order: seq<nat>, cuts: seq<nat>) {
    Within(order, |run.results|) && forall k | 0 <= k < |order| :: !PassesOn(run, order, cuts, k)
  }

  lemma NoWaitYet(run: Run)
    ensures After(run, 0) == Progress(First(run), {}, [], [], [])
  {
  }

  lemma AfterOne(run: Run, waits: nat)
    ensures var p := Filled(After(run, waits), |run.results|, Limit(run));
      After(run, waits + 1) == if p.pending == {} then p else Cut(run, Waited(p, run.wait(waits, p.pending)))
  {
  }

  // ------------------------------------------------------------- few are outstanding

  lemma {:induction false} FillsUpTo(p: Progress, n: nat, limit: nat)
    requires |p.pending| <= limit
    ensures |Filled(p, n, limit).pending| <= limit
    decreases n - p.next
  {
    if |p.pending| < limit && p.next < n {
      FillsUpTo(p.(next := p.next + 1, pending := p.pending + {p.next}), n, limit);
    }
  }

  /** In every wait of every run at most batch size times concurrency tasks are outstanding. */
  lemma {:induction false} FewOutstanding(run: Run, waits: nat)
    ensures |After(run, waits).pending| <= Limit(run)
    ensures |Filled(After(run, waits), |run.results|, Limit(run)).pending| <= Limit(run)
  {
    if waits > 0 {
      FewOutstanding(run, waits - 1);
      var p := Filled(After(run, waits - 1), |run.results|, Limit(run));
      Fewer(p.pending, Members(run.wait(waits - 1, p.pending).done));
    }
    FillsUpTo(After(run, waits), |run.results|, Limit(run));
  }

  lemma Fewer(a: set<nat>, b: set<nat>)
    ensures |a - b| <= |a|
  {
    assert a == (a - b) + (a * b);
  }

  // -------------------------------------------------------------- what a run passes on

  /** One has come as far as the other, and further. */
  ghost predicate GrowsTo(p: Progress, q: Progress) {
    && p.order <= q.order && p.taken <= q.taken && p.cuts <= q.cuts
    && forall k :: |p.cuts| <= k < |q.cuts| ==> q.cuts[k] >= |p.order|
  }

  lemma GrowsToo(p: Progress, q: Progress, r: Progress)
    requires GrowsTo(p, q) && GrowsTo(q, r)
    ensures GrowsTo(p, r)
  {
  }

  lemma GrowsNone(p: Progress)
    ensures GrowsTo(p, p)
  {
  }

  lemma GrowsOne(run: Run, waits: nat)
    ensures GrowsTo(After(run, waits), After(run, waits + 1))
  {
    FilledKeeps(After(run, waits), |run.results|, Limit(run));
    hide Filled, Limit, First, GroupsOf;
  }

  lemma {:induction false} FilledKeeps(p: Progress, n: nat, limit: nat)
    ensures Filled(p, n, limit).order == p.order && Filled(p, n, limit).taken == p.taken
    ensures Filled(p, n, limit).cuts == p.cuts
    decreases n - p.next
  {
    if |p.pending| < limit && p.next < n {
      FilledKeeps(p.(next := p.next + 1, pending := p.pending + {p.next}), n, limit);
    }
  }

  lemma {:induction false} Grows(run: Run, few: nat, waits: nat)
    requires few <= waits
    ensures GrowsTo(After(run, few), After(run, waits))
    decreases waits
  {
    hide After, GrowsTo;
    if few < waits {
      Grows(run, few, waits - 1);
      GrowsOne(run, waits - 1);
      GrowsToo(After(run, few), After(run, waits - 1), After(run, waits));
    } else {
      GrowsNone(After(run, few));
    }
  }

  lemma {:induction false} Stays(run: Run, few: nat, waits: nat)
    requires few <= waits && Finished(run, After(run, few))
    ensures After(run, waits) == After(run, few)
    decreases waits
  {
    hide Limit, First, Cut;
    if few < waits {
      Stays(run, few, waits - 1);
    }
  }

  lemma {:induction false} LaterCuts(run: Run, order: seq<nat>, cuts: seq<nat>, more: seq<nat>)
    requires Within(order, |run.results|)
    requires forall m :: m <= |order| ==> (m in cuts <==> m in more)
    ensures InForce(run, order, cuts) == InForce(run, order, more)
  {
    if order != [] {
      LaterCuts(run, order[..|order| - 1], cuts, more);
      hide Completed;
    }
  }

  lemma CutsAgree(p: Progress, q: Progress, m: nat)
    requires GrowsTo(p, q) && m < |p.order|
    ensures m in p.cuts <==> m in q.cuts
  {
    if m in q.cuts {
      var k :| 0 <= k < |q.cuts| && q.cuts[k] == m;
      assert p.cuts[k] == m;
    }
  }

  /** What is passed on does not depend on what comes later. */
  lemma PassesOnStill(run: Run, p: Progress, q: Progress, k: nat)
    requires GrowsTo(p, q) && Within(q.order, |run.results|) && k < |p.order|
    ensures Within(p.order, |run.results|)
    ensures PassesOn(run, p.order, p.cuts, k) == PassesOn(run, q.order, q.cuts, k)
  {
    forall m: nat | m <= k ensures m in p.cuts <==> m in q.cuts {
      CutsAgree(p, q, m);
    }
    assert forall j :: 0 <= j < |p.order| ==> p.order[j] == q.order[j];
    assert p.order[..k] == q.order[..k];
    LaterCuts(run, p.order[..k], p.cuts, q.cuts);
    hide InForce, Raises;
  }

  /** A run that finishes without passing a failure on comes upon none at all. */
  lemma FinishedIsSpared(run: Run, waits: nat)
    requires Finished(run, After(run, waits)) && Spared(run, After(run, waits).order, After(run, waits).cuts)
    ensures !Stops(run)
  {
    hide PassesOn, After, GrowsTo;
    var p := After(run, waits);
    forall w: nat, k: nat ensures !PassedOn(run, w, k) {
      var q := After(run, w);
      if w <= waits {
        Grows(run, w, waits);
        if k < |q.order| {
          PassesOnStill(run, q, p, k);
          Shorter(q, p);
        }
      } else {
        Stays(run, waits, w);
      }
    }
  }

  lemma Shorter(p: Progress, q: Progress)
    requires GrowsTo(p, q)
    ensures |p.order| <= |q.order|
  {
  }

  // ------------------------------------------------------------------ every run ends

  /** The tasks started so far, those from `first` up to the next, are pending or have completed, none
      has completed twice, and the results of all that have completed have been taken, each once. */
  ghost predicate Tracks(first: nat, p: Progress) {
    && first <= p.next && Reordered(p.order, p.taken)
    && (forall i: nat :: first <= i < p.next <==> i in p.pending || i in p.order)
    && forall i: nat :: i in p.pending ==> i !in p.order
  }

  lemma {:induction false} FilledTracks(first: nat, p: Progress, n: nat, limit: nat)
    requires Tracks(first, p) && p.next <= n
    ensures var q := Filled(p, n, limit);
      && Tracks(first, q) && q.next <= n && (limit > 0 && q.pending == {} ==> q.next == n)
      && n - q.next + |q.pending| <= n - p.next + |p.pending|
    decreases n - p.next
  {
    if |p.pending| < limit && p.next < n {
      FilledTracks(first, p.(next := p.next + 1, pending := p.pending + {p.next}), n, limit);
    }
  }

  lemma WaitedTracks(first: nat, p: Progress, w: Wait)
    requires Tracks(first, p) && Chosen(w, p.pending)
    ensures Tracks(first, Waited(p, w)) && |Waited(p, w).pending| < |p.pending|
  {
    var q, t := Waited(p, w), w.done[0];
    assert t in p.pending && t !in q.pending && q.pending <= p.pending;
    Fewer(p.pending - {t}, Members(w.done));
    assert q.pending == (p.pending - {t}) - Members(w.done);
    Apart(p, w);
    ReorderedJoin(p.order, p.taken, w.done, w.taken);
  }

  lemma Apart(p: Progress, w: Wait)
    requires Chosen(w, p.pending) && forall t: nat :: t in p.pending ==> t !in p.order
    ensures forall t: nat :: t in w.done ==> t in p.pending && t !in p.order
  {
  }

  lemma ReorderedJoin(a: seq<nat>, b: seq<nat>, c: seq<nat>, d: seq<nat>)
    requires Reordered(a, b) && Reordered(c, d) && forall t: nat :: t in c ==> t !in a
    ensures Reordered(a + c, b + d)
  {
    DistinctJoin(a, c);
    DistinctJoin(b, d);
    hide Distinct;
  }

  lemma DistinctJoin(a: seq<nat>, b: seq<nat>)
    requires Distinct(a) && Distinct(b) && forall t: nat :: t in b ==> t !in a
    ensures Distinct(a + b)
  {
    var s := a + b;
    forall j, k | 0 <= j < k < |s| ensures s[j] != s[k] {
      assert j < |a| <= k ==> a[j] in a && b[k - |a|] in b;
    }
  }

  /** What is left to be done. */
  function Work(run: Run, p: Progress): int {
    |run.results| - p.next + |p.pending|
  }

  lemma {:induction false} AfterTracks(run: Run, waits: nat)
    requires Proper(run)
    ensures var p := After(run, waits);
      Tracks(First(run), p) && p.next <= |run.results| && Work(run, p) >= 0 && Within(p.order, |run.results|)
    ensures Finished(run, After(run, waits)) || Work(run, After(run, waits + 1)) < Work(run, After(run, waits))
  {
    hide Tracks, Filled, Fair, Chosen;
    var n := |run.results|;
    if waits > 0 {
      AfterTracks(run, waits - 1);
      Onward(run, waits - 1);
    } else {
      StartTracks(run);
    }
    Onward(run, waits);
    TracksWithin(First(run), After(run, waits));
  }

  lemma TracksWithin(first: nat, p: Progress)
    requires Tracks(first, p)
    ensures Within(p.order, p.next)
  {
    assert forall k :: 0 <= k < |p.order| ==> p.order[k] in p.order;
  }

  /** After every wait the results taken so far are those of the tasks completed so far, and they have been
      taken before those of any later wait. */
  lemma TakenWaitByWait(run: Run, few: nat, waits: nat)
    requires Proper(run) && few <= waits
    ensures Reordered(After(run, few).order, After(run, few).taken)
    ensures After(run, few).order <= After(run, waits).order && After(run, few).taken <= After(run, waits).taken
  {
    hide After, Fair;
    AfterTracks(run, few);
    Grows(run, few, waits);
  }

  lemma StartTracks(run: Run)
    ensures Tracks(First(run), After(run, 0))
  {
  }

  lemma Onward(run: Run, waits: nat)
    requires Proper(run) && Tracks(First(run), After(run, waits)) && After(run, waits).next <= |run.results|
    ensures Tracks(First(run), After(run, waits + 1)) && After(run, waits + 1).next <= |run.results|
    ensures Finished(run, After(run, waits)) || Work(run, After(run, waits + 1)) < Work(run, After(run, waits))
  {
    hide Filled, Chosen;
    var p := After(run, waits);
    LimitIsPositive(run);
    FilledTracks(First(run), p, |run.results|, Limit(run));
    var q := Filled(p, |run.results|, Limit(run));
    if q.pending != {} {
      WaitedTracks(First(run), q, run.wait(waits, q.pending));
    }
  }

  lemma LimitIsPositive(run: Run)
    requires run.batchSize > 0 && run.concurrent > 0
    ensures Limit(run) > 0
  {
  }

  lemma {:induction false} RunEnds(run: Run, waits: nat) returns (end: nat)
    requires Proper(run)
    ensures Finished(run, After(run, end)) && Covers(After(run, end).order, First(run), |run.results|)
    decreases Work(run, After(run, waits))
  {
    hide After, Tracks;
    AfterTracks(run, waits);
    if Finished(run, After(run, waits)) {
      end := waits;
      TracksAll(run, After(run, waits));
    } else {
      AfterTracks(run, waits + 1);
      end := RunEnds(run, waits + 1);
    }
  }

  lemma TracksAll(run: Run, p: Progress)
    requires Tracks(First(run), p) && p.next <= |run.results| && Finished(run, p)
    ensures Covers(p.order, First(run), |run.results|)
  {
    forall k | 0 <= k < |p.order| ensures First(run) <= p.order[k] < |run.results| {
      assert p.order[k] in p.order;
    }
  }
}
