/** Yielding trajectory groups in batches while a bounded number of tasks is outstanding. */
module Batches {
  import opened Gather
  import opened GatherVerdict
  import opened Wrappers
  import opened Sequences
  import opened BatchRun
  import opened BatchFailures

  /** No failure was to be passed on so far; the context is the one in force; every batch yielded has exactly
      the size; and with what is left they hold every success, in the order in which results were taken. */
  ghost predicate Books(run: Run, p: Progress, yielded: seq<seq<Group>>, batch: seq<Group>, state: Context) {
    && Counts(run, p.order, p.cuts, state) && Spared(run, p.order, p.cuts)
    && Yields(run, p.taken, |p.cuts|, yielded, batch)
  }

  ghost predicate Counts(run: Run, order: seq<nat>, cuts: seq<nat>, state: Context) {
    && Within(order, |run.results|) && (forall m <- cuts :: m <= |order|)
    && state == InForce(run, order, cuts)
  }

  ghost predicate Yields(run: Run, taken: seq<nat>, cuts: nat, yielded: seq<seq<Group>>, batch: seq<Group>) {
    && |yielded| == cuts && (forall k :: 0 <= k < |yielded| ==> |yielded[k]| == run.batchSize)
    && Concat(yielded) + batch == GroupsOf(run.results, taken)
  }

  /** Nothing was passed on until after a wait, and in the next one something is.  What has been yielded by
      then is whole batches of what was taken before. */
  ghost predicate Aborted(run: Run, p: Progress, q: Progress, yielded: seq<seq<Group>>) {
    && Spared(run, p.order, p.cuts) && p.order <= q.order && PassesSome(run, q.order, q.cuts, |p.order|)
    && |yielded| == |p.cuts| && (forall k :: 0 <= k < |yielded| ==> |yielded[k]| == run.batchSize)
    && Concat(yielded) <= GroupsOf(run.results, p.taken)
  }

  /** From one completion on, some failure is passed on. */
  ghost predicate PassesSome(run: Run, order: seq<nat>, cuts: seq<nat>, from: nat) {
    Within(order, |run.results|) && exists k :: from <= k < |order| && PassesOn(run, order, cuts, k)
  }

  /** Every group that is not skipped has completed, none was passed on, and each success is in one
      batch: one for each yield, and one more for what is left at the end. */
  ghost predicate Ended(run: Run, p: Progress, yielded: seq<seq<Group>>) {
    && Covers(p.order, First(run), |run.results|) && Spared(run, p.order, p.cuts)
    && Reordered(p.order, p.taken) && Concat(yielded) == GroupsOf(run.results, p.taken)
    && |p.cuts| <= |yielded| <= |p.cuts| + 1
    && (forall k :: 0 <= k < |p.cuts| ==> |yielded[k]| == run.batchSize)
    && forall k :: 0 <= k < |yielded| ==> yielded[k] != []
  }

  // ------------------------------------------------------------ the tasks that a wait finds done

  /** What a task comes to: a group unless it fails, or a failure that is passed on. */
  datatype Slot = Slot(group: Option<Group>, raised: bool)

  predicate Holds(results: seq<Outcome>, slots: map<nat, Slot>, t: nat) {
    t in slots && t < |results| && slots[t].group == if results[t].Succeeds? then Some(results[t].group) else None
  }

  lemma InForceSnoc(run: Run, order: seq<nat>, cuts: seq<nat>, t: nat)
    requires Within(order, |run.results|) && t < |run.results| && forall m <- cuts :: m <= |order|
    ensures InForce(run, order + [t], cuts) == Completed(InForce(run, order, cuts), run.results[t])
    ensures PassesOn(run, order + [t], cuts, |order|) == Raises(InForce(run, order, cuts), run.results[t])
  {
    assert (order + [t])[..|order|] == order;
    hide Completed, Raises;
  }

  lemma PassesOnSame(run: Run, order: seq<nat>, cuts: seq<nat>, more: seq<nat>, k: nat)
    requires Within(order + more, |run.results|) && k < |order|
    ensures Within(order, |run.results|) && PassesOn(run, order + more, cuts, k) == PassesOn(run, order, cuts, k)
  {
    var all := order + more;
    assert forall j :: 0 <= j < |order| ==> order[j] == all[j];
    assert all[..k] == order[..k];
    hide InForce, Raises;
  }

  /** The tasks complete one after the other, and the context counts them. */
  method Complete(context: GatherContext, results: seq<Outcome>, done: seq<nat>, ghost run: Run, ghost before: seq<nat>,
                  ghost cuts: seq<nat>)
    returns (slots: map<nat, Slot>)
    requires results == run.results && Within(before + done, |results|) && Distinct(done)
    requires Counts(run, before, cuts, context.State())
    modifies context
    ensures Counts(run, before + done, cuts, context.State()) && context.total == old(context.total)
    ensures forall t <- done :: Holds(results, slots, t)
    ensures forall k :: 0 <= k < |done| ==>
      done[k] in slots && slots[done[k]].raised == PassesOn(run, before + done, cuts, |before| + k)
  {
    hide PassesOn, Counts;
    slots := map[];
    CompletedNone(before, done);
    for k := 0 to |done|
      invariant Counts(run, before + done[..k], cuts, context.State()) && context.total == old(context.total)
      invariant forall j :: 0 <= j < k ==> Holds(results, slots, done[j])
      invariant forall j :: 0 <= j < k ==>
        done[j] in slots && slots[done[j]].raised == PassesOn(run, before + done, cuts, |before| + j)
    {
      CompletesOne(run, before, cuts, done, k, context.State());
      var group, raised := context.WrapGroup(results[done[k]]);
      slots := slots[done[k] := Slot(group, raised)];
    }
    assert done[..|done|] == done;
  }

  lemma CompletedNone(before: seq<nat>, done: seq<nat>)
    ensures before + done[..0] == before
  {
  }

  lemma CompletesOne(run: Run, before: seq<nat>, cuts: seq<nat>, done: seq<nat>, k: nat, state: Context)
    requires Within(before + done, |run.results|) && k < |done| && Counts(run, before + done[..k], cuts, state)
    ensures done[k] < |run.results|
    ensures Counts(run, before + done[..k + 1], cuts, Completed(state, run.results[done[k]]))
    ensures PassesOn(run, before + done, cuts, |before| + k) == Raises(state, run.results[done[k]])
  {
    assert (before + done)[|before| + k] == done[k];
    var order := before + done[..k];
    InForceSnoc(run, order, cuts, done[k]);
    assert before + done[..k + 1] == order + [done[k]];
    assert before + done == (order + [done[k]]) + done[k + 1..];
    PassesOnSame(run, order + [done[k]], cuts, done[k + 1..], |order|);
    hide InForce, PassesOn, Completed, Raises;
  }

  lemma GroupsSnoc(results: seq<Outcome>, order: seq<nat>, t: nat)
    requires t < |results|
    ensures GroupsOf(results, order + [t]) ==
      GroupsOf(results, order) + if results[t].Succeeds? then [results[t].group] else []
  {
    assert (order + [t])[..|order|] == order;
  }

  lemma {:induction false} GroupsJoin(results: seq<Outcome>, a: seq<nat>, b: seq<nat>)
    ensures GroupsOf(results, a + b) == GroupsOf(results, a) + GroupsOf(results, b)
  {
    if b == [] {
      assert a + b == a;
    } else {
      var n := |b| - 1;
      assert (a + b)[..|a + b| - 1] == a + b[..n];
      GroupsJoin(results, a, b[..n]);
    }
  }

  /** The results of these tasks are taken one after the other, up to a failure that is passed on. */
  method Absorb(results: seq<Outcome>, slots: map<nat, Slot>, taken: seq<nat>, left: seq<Group>)
    returns (batch: seq<Group>, raised: bool)
    requires forall t <- taken :: t in slots && Holds(results, slots, t)
    ensures raised <==> exists t <- taken :: slots[t].raised
    ensures !raised ==> batch == left + GroupsOf(results, taken)
  {
    hide GroupsOf;
    batch, raised := left, false;
    GroupsOfNone(results, taken, left);
    for k := 0 to |taken|
      invariant batch == left + GroupsOf(results, taken[..k])
      invariant forall j :: 0 <= j < k ==> !slots[taken[j]].raised
    {
      var t := taken[k];
      assert t in taken && Holds(results, slots, t) && taken[..k + 1] == taken[..k] + [t];
      GroupsSnoc(results, taken[..k], t);
      if slots[t].raised {
        return batch, true;
      }
      if slots[t].group.Some? {
        batch := batch + [slots[t].group.value];
      }
    }
    assert taken[..|taken|] == taken;
  }

  lemma GroupsOfNone(results: seq<Outcome>, taken: seq<nat>, left: seq<Group>)
    ensures left == left + GroupsOf(results, taken[..0])
  {
  }

  lemma SparedMore(run: Run, before: seq<nat>, cuts: seq<nat>, done: seq<nat>)
    requires Spared(run, before, cuts) && Within(before + done, |run.results|)
    ensures Spared(run, before + done, cuts) <==> !PassesSome(run, before + done, cuts, |before|)
  {
    forall k: nat | k < |before| ensures !PassesOn(run, before + done, cuts, k) {
      PassesOnSame(run, before, cuts, done, k);
    }
    hide PassesOn;
  }

  /** A wait in which nothing is passed on. */
  lemma WaitedBooks(run: Run, p: Progress, w: Wait, yielded: seq<seq<Group>>, left: seq<Group>, was: Context,
                    state: Context)
    requires Books(run, p, yielded, left, was) && Counts(run, p.order + w.done, p.cuts, state)
    requires Spared(run, p.order + w.done, p.cuts)
    ensures Books(run, Waited(p, w), yielded, left + GroupsOf(run.results, w.taken), state)
  {
    GroupsJoin(run.results, p.taken, w.taken);
    hide Counts, Spared, GroupsOf, Concat;
    var groups := GroupsOf(run.results, w.taken);
    assert Concat(yielded) + (left + groups) == Concat(yielded) + left + groups;
  }

  // ------------------------------------------------------------------------- yielding

  lemma YieldOne(run: Run, taken: seq<nat>, cuts: nat, yielded: seq<seq<Group>>, batch: seq<Group>)
    requires Yields(run, taken, cuts, yielded, batch) && |batch| >= run.batchSize
    ensures Yields(run, taken, cuts + 1, yielded + [batch[..run.batchSize]], batch[run.batchSize..])
  {
    ConcatSnoc(yielded, batch[..run.batchSize]);
    assert batch == batch[..run.batchSize] + batch[run.batchSize..];
    hide GroupsOf, Concat;
  }

  /** A batch is yielded, and with it goes the budget. */
  lemma YieldBatch(run: Run, p: Progress, yielded: seq<seq<Group>>, batch: seq<Group>, state: Context)
    requires Books(run, p, yielded, batch, state) && |batch| >= run.batchSize && p.order != []
    ensures Books(run, p.(cuts := p.cuts + [|p.order|]), yielded + [batch[..run.batchSize]], batch[run.batchSize..],
                  Opening(run, 0.0))
  {
    YieldOne(run, p.taken, |p.cuts|, yielded, batch);
    var cuts := p.cuts + [|p.order|];
    forall k: nat | k < |p.order| ensures !PassesOn(run, p.order, cuts, k) {
      assert !PassesOn(run, p.order, p.cuts, k);
      LaterCuts(run, p.order[..k], p.cuts, cuts);
    }
    hide Yields, PassesOn, Completed;
  }

  lemma {:induction false} ConcatSize<T>(parts: seq<seq<T>>, size: nat)
    requires forall k :: 0 <= k < |parts| ==> |parts[k]| == size
    ensures |Concat(parts)| == size * |parts|
  {
    if parts != [] {
      ConcatSize(parts[1..], size);
      assert size * |parts| == size * (|parts| - 1) + size;
    }
  }

  /** A batch is yielded when the run says so. */
  lemma YieldsWhenCut(run: Run, p: Progress, yielded: seq<seq<Group>>, batch: seq<Group>, state: Context)
    requires Books(run, p, yielded, batch, state)
    ensures Cut(run, p) == if |batch| >= run.batchSize then p.(cuts := p.cuts + [|p.order|]) else p
  {
    hide GroupsOf, Counts, Spared;
    ConcatSize(yielded, run.batchSize);
    assert run.batchSize * (|p.cuts| + 1) == run.batchSize * |p.cuts| + run.batchSize;
  }

  /** At the end what is left is one more batch, if it is anything. */
  lemma Closes(run: Run, p: Progress, yielded: seq<seq<Group>>, batch: seq<Group>, state: Context)
    requires Books(run, p, yielded, batch, state) && run.batchSize > 0
    requires Covers(p.order, First(run), |run.results|) && Reordered(p.order, p.taken)
    ensures Ended(run, p, if batch == [] then yielded else yielded + [batch])
  {
    ConcatSnoc(yielded, batch);
    hide Spared, GroupsOf, Covers, First, Counts, Concat, Reordered;
    assert batch == [] ==> Concat(yielded) + batch == Concat(yielded);
  }

  // ------------------------------------------------------------------ the generator

  /** These are the tasks from one on, in order. */
  ghost predicate TasksFrom(waiting: seq<nat>, from: nat, n: nat) {
    from + |waiting| == n && forall i | 0 <= i < |waiting| :: waiting[i] == from + i
  }

  lemma FillOne(p: Progress, n: nat, limit: nat)
    ensures Filled(p, n, limit) == if |p.pending| < limit && p.next < n
      then Filled(p.(next := p.next + 1, pending := p.pending + {p.next}), n, limit) else p
  {
  }

  /** Starts tasks in order while fewer than `limit` are outstanding. */
  method Fill(start: set<nat>, waiting: seq<nat>, limit: nat, ghost p: Progress, ghost n: nat)
    returns (pending: set<nat>, unstarted: seq<nat>)
    requires start == p.pending && TasksFrom(waiting, p.next, n)
    ensures pending == Filled(p, n, limit).pending && TasksFrom(unstarted, Filled(p, n, limit).next, n)
  {
    hide Filled;
    pending, unstarted := start, waiting;
    ghost var q := p;
    while |pending| < limit && unstarted != []
      invariant pending == q.pending && TasksFrom(unstarted, q.next, n)
      invariant Filled(q, n, limit) == Filled(p, n, limit)
      decreases |unstarted|
    {
      FillOne(q, n, limit);
      q := q.(next := q.next + 1, pending := q.pending + {q.next});
      pending := pending + {unstarted[0]};
      unstarted := unstarted[1..];
    }
    FillOne(q, n, limit);
  }

  /** All completions are of started tasks, each once. */
  ghost predicate Inside(order: seq<nat>, first: nat, next: nat) {
    Distinct(order) && forall k :: 0 <= k < |order| ==> first <= order[k] < next
  }

  lemma InsideRun(run: Run, waits: nat)
    requires Proper(run)
    ensures Inside(After(run, waits).order, run.batchSize * run.skip, |run.results|)
  {
    AfterTracks(run, waits);
    hide Fair, After;
    var p := After(run, waits);
    assert forall k :: 0 <= k < |p.order| ==> p.order[k] in p.order;
  }

  lemma PendingIsInside(run: Run, waits: nat)
    requires Proper(run) && !Finished(run, After(run, waits))
    ensures var p := After(run, waits);
      var q := Filled(p, |run.results|, Limit(run));
      var w := run.wait(waits, q.pending);
      && q.pending != {} && q.order == p.order && q.taken == p.taken && q.cuts == p.cuts
      && w.done != [] && Reordered(w.done, w.taken) && Within(p.order + w.done, |run.results|)
  {
    AfterTracks(run, waits);
    var p := After(run, waits);
    hide After;
    LimitIsPositive(run);
    FilledTracks(First(run), p, |run.results|, Limit(run));
    FilledKeeps(p, |run.results|, Limit(run));
    FilledIsBusy(p, |run.results|, Limit(run));
    hide Filled;
  }

  lemma {:induction false} FilledIsBusy(p: Progress, n: nat, limit: nat)
    requires limit > 0 && (p.next < n || p.pending != {})
    ensures Filled(p, n, limit).pending != {}
    decreases n - p.next
  {
    if |p.pending| < limit && p.next < n {
      FilledIsBusy(p.(next := p.next + 1, pending := p.pending + {p.next}), n, limit);
    }
  }

  /** A failure that was passed on is one that the run comes upon. */
  lemma AbortedStops(run: Run, waits: nat, yielded: seq<seq<Group>>)
    requires Aborted(run, After(run, waits), After(run, waits + 1), yielded)
    ensures Stops(run)
  {
    hide After, PassesOn, Spared, GroupsOf, Concat;
    var q := After(run, waits + 1);
    var k: nat :| |After(run, waits).order| <= k < |q.order| && PassesOn(run, q.order, q.cuts, k);
    assert PassedOn(run, waits + 1, k);
  }

  /** A wait in which something is passed on. */
  lemma Aborts(run: Run, waits: nat, w: Wait, yielded: seq<seq<Group>>, batch: seq<Group>, state: Context)
    requires var p, q := After(run, waits), After(run, waits + 1);
      && Books(run, p, yielded, batch, state) && q.order == p.order + w.done
      && Within(q.order, |run.results|) && PassesSome(run, q.order, p.cuts, |p.order|)
    ensures Aborted(run, After(run, waits), After(run, waits + 1), yielded)
  {
    CutsLater(run, waits);
    hide After, Spared, GroupsOf, Concat, Raises, Counts;
    var p, q := After(run, waits), After(run, waits + 1);
    var k: nat :| |p.order| <= k < |q.order| && PassesOn(run, q.order, p.cuts, k);
    LaterCuts(run, q.order[..k], p.cuts, q.cuts);
    hide InForce;
    assert PassesOn(run, q.order, q.cuts, k);
  }

  lemma CutsLater(run: Run, waits: nat)
    ensures var p, q := After(run, waits), After(run, waits + 1);
      q.cuts == p.cuts || q.cuts == p.cuts + [|q.order|]
  {
    FilledKeeps(After(run, waits), |run.results|, Limit(run));
    hide Filled, Limit, First, GroupsOf;
  }

  lemma RaisedIff(run: Run, before: seq<nat>, cuts: seq<nat>, w: Wait, slots: map<nat, Slot>)
    requires Within(before + w.done, |run.results|) && Reordered(w.done, w.taken)
    requires forall k :: 0 <= k < |w.done| ==>
      w.done[k] in slots && slots[w.done[k]].raised == PassesOn(run, before + w.done, cuts, |before| + k)
    ensures forall t <- w.taken :: t in slots
    ensures (exists t <- w.taken :: slots[t].raised) <==> PassesSome(run, before + w.done, cuts, |before|)
  {
    hide PassesOn;
    var order := before + w.done;
    forall t | t in w.taken ensures t in slots {
      assert t in w.done;
    }
    if t :| t in w.taken && slots[t].raised {
      assert t in w.done;
      var k :| 0 <= k < |w.done| && w.done[k] == t;
      assert PassesOn(run, order, cuts, |before| + k);
    }
    if k :| |before| <= k < |order| && PassesOn(run, order, cuts, k) {
      var t := w.done[k - |before|];
      assert t in w.done && slots[t].raised;
    }
  }

  lemma TakenHold(results: seq<Outcome>, slots: map<nat, Slot>, w: Wait)
    requires Reordered(w.done, w.taken) && forall t <- w.done :: Holds(results, slots, t)
    ensures forall t <- w.taken :: t in slots && Holds(results, slots, t)
  {
  }

  /** The generator, run to its end; `waits` is how many waits came before the last.

      It raises exactly if the run comes upon a failure that is over the budget in force; without a
      budget and without a metric called "exceptions" that is any failure.  Otherwise every group after
      the skipped batches has completed once, and the batches hold the successes in the order in which
      results were taken, wait after wait: one batch of the batch size for each yield and one more for
      what is left. */
  method TrajectoryGroupBatches(results: seq<Outcome>, batchSize: nat, budget: real, concurrent: nat, skip: nat,
                                wait: Waiter)
    returns (yielded: seq<seq<Group>>, raised: bool, ghost waits: nat)
    requires batchSize > 0 && concurrent > 0 && Fair(wait)
    ensures var run := Run(results, batchSize, budget, concurrent, skip, wait);
      && (raised <==> Stops(run))
      && Inside(After(run, if raised then waits + 1 else waits).order, batchSize * skip, |results|)
      && if raised then Aborted(run, After(run, waits), After(run, waits + 1), yielded)
         else Finished(run, After(run, waits)) && Ended(run, After(run, waits), yielded)
    ensures budget == 0.0 && NoClash(results) ==> (raised <==> SomeFails(results, batchSize * skip))
  {
    hide Fair, Books, Aborted, Ended, Inside, Filled, After, Covers, Stops, TasksFrom, Chosen, Raises, Work, Finished,
      Cut, Tracks, Counts, Spared, GroupsOf, PassesOn, PassesSome, Reordered;
    ghost var run := Run(results, batchSize, budget, concurrent, skip, wait);
    var first := if batchSize * skip <= |results| then batchSize * skip else |results|;
    var unstarted: seq<nat> := seq(|results| - first, i requires 0 <= i < |results| - first => first + i);
    var pending: set<nat> := {};
    var batch: seq<Group> := [];
    var context := new GatherContext(None, budget);
    var round := 0;
    ghost var p := After(run, 0);
    yielded, raised, waits := [], false, 0;
    Begins(run, unstarted);
    if budget == 0.0 && NoClash(results) {
      NoClashAnyFailureStops(run);
    }
    while unstarted != [] || pending != {}
      invariant fresh(context) && !raised && round == waits
      invariant p == After(run, waits) && pending == p.pending
      invariant TasksFrom(unstarted, p.next, |results|)
      invariant context.total.None? || context.total == Some(batchSize)
      invariant Books(run, p, yielded, batch, context.State().(total := Some(batchSize)))
      decreases Work(run, p)
    {
      if context.total.None? {
        context.total := Some(batchSize);
      }
      StillBusy(run, p, unstarted);
      AfterTracks(run, waits);
      PendingIsInside(run, waits);
      AfterOne(run, waits);
      ghost var q := Filled(p, |results|, Limit(run));
      pending, unstarted := Fill(pending, unstarted, batchSize * concurrent, p, |results|);
      var w := wait(round, pending);
      round := round + 1;
      ghost var left, state := batch, context.State();
      SameBooks(run, q, p, yielded, left, state);
      batch, raised := OneWait(context, results, w, batch, run, q, yielded);
      pending := pending - Members(w.done);
      OrderGrows(run, Waited(q, w));
      if raised {
        Aborts(run, waits, w, yielded, left, state);
        AbortedStops(run, waits, yielded);
        InsideRun(run, waits + 1);
        return;
      }
      YieldsWhenCut(run, Waited(q, w), yielded, batch, context.State());
      waits := waits + 1;
      p := After(run, waits);
      if |batch| >= batchSize {
        YieldBatch(run, Waited(q, w), yielded, batch, context.State());
        context.Reset();
        yielded := yielded + [batch[..batchSize]];
        batch := batch[batchSize..];
      }
    }
    Finishes(run, waits, unstarted, yielded, batch, context.State().(total := Some(batchSize)));
    InsideRun(run, waits);
    if batch != [] {
      yielded := yielded + [batch];
    }
  }

  lemma OrderGrows(run: Run, p: Progress)
    ensures Cut(run, p).order == p.order && Cut(run, p).pending == p.pending
  {
    hide GroupsOf;
  }

  lemma SameBooks(run: Run, p: Progress, q: Progress, yielded: seq<seq<Group>>, batch: seq<Group>, state: Context)
    requires Books(run, q, yielded, batch, state) && p.order == q.order && p.taken == q.taken && p.cuts == q.cuts
    ensures Books(run, p, yielded, batch, state)
  {
  }

  /** The tasks that one wait has found done have completed, and their results are taken. */
  method OneWait(context: GatherContext, results: seq<Outcome>, w: Wait, left: seq<Group>, ghost run: Run,
                 ghost p: Progress, ghost yielded: seq<seq<Group>>)
    returns (batch: seq<Group>, raised: bool)
    requires results == run.results && Books(run, p, yielded, left, context.State())
    requires Reordered(w.done, w.taken) && Within(p.order + w.done, |results|)
    modifies context
    ensures context.total == old(context.total)
    ensures raised <==> PassesSome(run, p.order + w.done, p.cuts, |p.order|)
    ensures !raised ==> Books(run, Waited(p, w), yielded, batch, context.State())
  {
    hide Counts, Spared, GroupsOf, PassesOn, PassesSome, Yields, Within;
    ghost var was := context.State();
    var slots := Complete(context, results, w.done, run, p.order, p.cuts);
    RaisedIff(run, p.order, p.cuts, w, slots);
    TakenHold(results, slots, w);
    batch, raised := Absorb(results, slots, w.taken, left);
    SparedMore(run, p.order, p.cuts, w.done);
    if !raised {
      WaitedBooks(run, p, w, yielded, left, was, context.State());
    }
  }

  lemma Begins(run: Run, unstarted: seq<nat>)
    requires |unstarted| == |run.results| - First(run)
    requires forall i | 0 <= i < |unstarted| :: unstarted[i] == First(run) + i
    ensures var p := After(run, 0);
      p == Progress(First(run), {}, [], [], []) && TasksFrom(unstarted, p.next, |run.results|)
      && Books(run, p, [], [], Opening(run, run.budget))
  {
  }

  lemma StillBusy(run: Run, p: Progress, unstarted: seq<nat>)
    requires TasksFrom(unstarted, p.next, |run.results|)
    ensures Finished(run, p) <==> unstarted == [] && p.pending == {}
  {
  }

  lemma Finishes(run: Run, waits: nat, unstarted: seq<nat>, yielded: seq<seq<Group>>, batch: seq<Group>, state: Context)
    requires var p := After(run, waits);
      && p.pending == {} && unstarted == [] && TasksFrom(unstarted, p.next, |run.results|)
      && Books(run, p, yielded, batch, state)
    requires Proper(run)
    ensures Finished(run, After(run, waits)) && !Stops(run)
    ensures Ended(run, After(run, waits), if batch == [] then yielded else yielded + [batch])
  {
    var p := After(run, waits);
    AfterTracks(run, waits);
    StillBusy(run, p, unstarted);
    TracksAll(run, p);
    Closes(run, p, yielded, batch, state);
    FinishedIsSpared(run, waits);
    hide *;
  }
}
