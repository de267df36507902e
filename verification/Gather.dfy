/** Gathering trajectory groups under a budget of failures, in whatever order they complete. */
module Gather {
  import opened Wrappers
  import opened Sequences

  datatype Trajectory = Trajectory(reward: real, metrics: map<string, real>)

  type Group = seq<Trajectory>

  /** What awaiting a group comes to. */
  datatype Outcome = Succeeds(group: Group) | Fails

  /** The shared context: the length of the progress bar if there is one, the sums and counts by
      metric, and the budget, a number of failures or a fraction below one. */
  datatype Context = Context(total: Option<nat>, sums: map<string, real>, divisors: map<string, int>, budget: real)

  const EXCEPTIONS: string := "exceptions"
  const REWARD: string := "reward"

  function Get<N(0)>(counter: map<string, N>, name: string, zero: N): N {
    if name in counter then counter[name] else zero
  }

  function Sum(counter: map<string, real>, name: string): real {
    Get(counter, name, 0.0)
  }

  /** A counter with the values of another added. */
  function Added(counter: map<string, real>, more: map<string, real>): map<string, real> {
    map name | name in counter.Keys + more.Keys :: Sum(counter, name) + Sum(more, name)
  }

  function Counted(counter: map<string, int>, names: set<string>): map<string, int> {
    map name | name in counter.Keys + names :: Get(counter, name, 0) + if name in names then 1 else 0
  }

  /** One trajectory recorded: its reward, then its metrics under their own names. */
  function Recorded(c: Context, t: Trajectory): Context {
    c.(sums := Added(c.sums[REWARD := Sum(c.sums, REWARD) + t.reward], t.metrics),
       divisors := Counted(c.divisors[REWARD := Get(c.divisors, REWARD, 0) + 1], t.metrics.Keys))
  }

  function RecordedAll(c: Context, group: Group): (r: Context)
    ensures r.total == c.total && r.budget == c.budget
  {
    if group == [] then c else Recorded(RecordedAll(c, group[..|group| - 1]), group[|group| - 1])
  }

  function Failed(c: Context): Context {
    c.(sums := c.sums[EXCEPTIONS := Sum(c.sums, EXCEPTIONS) + 1.0])
  }

  /** So many failures are over the budget. */
  predicate OverBudget(failures: real, total: Option<nat>, budget: real) {
    !(0.0 < budget < 1.0 && total.Some? && total.value > 0 && failures / total.value as real <= budget)
    && !(failures <= budget)
  }

  predicate TooMany(c: Context) {
    OverBudget(Sum(c.sums, EXCEPTIONS), c.total, c.budget)
  }

  function Completed(c: Context, o: Outcome): (r: Context)
    ensures r.total == c.total && r.budget == c.budget
  {
    match o
    case Succeeds(group) => RecordedAll(c, group)
    case Fails => Failed(c)
  }

  /** This completion raises. */
  predicate Raises(c: Context, o: Outcome) {
    o.Fails? && TooMany(Failed(c))
  }

  /** Failures raise when they are more than the budget; with a budget between 0 and 1 and a known number of
      groups only when they are more than that part of them as well. */
  lemma OverBudgetIs(failures: real, total: Option<nat>, budget: real)
    ensures OverBudget(failures, total, budget) <==>
      && failures > budget
      && (0.0 < budget < 1.0 && total.Some? && total.value > 0 ==> failures > budget * total.value as real)
  {
    if total.Some? && total.value > 0 {
      Fraction(failures, total.value as real, budget);
    }
  }

  lemma Fraction(failures: real, total: real, budget: real)
    requires total > 0.0
    ensures failures / total <= budget <==> failures <= budget * total
  {
    var part := failures / total;
    assert part * total == failures;
    assert (budget - part) * total == budget * total - failures;
    if part > budget {
      assert (part - budget) * total > 0.0;
    } else {
      assert (budget - part) * total >= 0.0;
    }
  }

  /** A trajectory adds its reward to the sum called "reward" and every metric to the sum of its name, and one to
      the count of each. */
  lemma RecordedIs(c: Context, t: Trajectory, name: string)
    ensures var r := Recorded(c, t);
      && r.total == c.total && r.budget == c.budget
      && Get(r.sums, name, 0.0) == Get(c.sums, name, 0.0) + (if name == "reward" then t.reward else 0.0)
                                   + (if name in t.metrics then t.metrics[name] else 0.0)
      && Get(r.divisors, name, 0) == Get(c.divisors, name, 0) + (if name == "reward" then 1 else 0)
                                     + (if name in t.metrics then 1 else 0)
      && (name in r.sums <==> name in c.sums || name == "reward" || name in t.metrics)
      && (name in r.divisors <==> name in c.divisors || name == "reward" || name in t.metrics)
  {
  }

  /** A failure adds one to the sum called "exceptions", and raises if that is then over the budget. */
  lemma FailureIs(c: Context)
    ensures Failed(c).sums == c.sums["exceptions" := Get(c.sums, "exceptions", 0.0) + 1.0]
    ensures Failed(c).divisors == c.divisors && Failed(c).total == c.total && Failed(c).budget == c.budget
    ensures Raises(c, Fails) <==> OverBudget(Get(c.sums, "exceptions", 0.0) + 1.0, c.total, c.budget)
  {
  }

  class GatherContext {
    var total: Option<nat>
    var sums: map<string, real>
    var divisors: map<string, int>
    var budget: real

    function State(): Context
      reads this
    {
      Context(total, sums, divisors, budget)
    }

    constructor (total: Option<nat>, budget: real)
      ensures State() == Context(total, map[], map[], budget)
    {
      this.total, this.sums, this.divisors, this.budget := total, map[], map[], budget;
    }

    method RecordMetrics(t: Trajectory)
      modifies this
      ensures State() == Recorded(old(State()), t)
    {
      hide Added, Counted, Sum;
      sums := sums[REWARD := Sum(sums, REWARD) + t.reward];
      divisors := divisors[REWARD := Get(divisors, REWARD, 0) + 1];
      sums := Added(sums, t.metrics);
      divisors := Counted(divisors, t.metrics.Keys);
    }

    /** Await one group.  A failure is counted, and passed on only when the count is over the
        budget. */
    method WrapGroup(o: Outcome) returns (group: Option<Group>, raised: bool)
      modifies this
      ensures State() == Completed(old(State()), o) && raised == Raises(old(State()), o)
      ensures group == if o.Succeeds? then Some(o.group) else None
    {
      match o {
        case Succeeds(all) =>
          for k := 0 to |all|
            invariant State() == RecordedAll(old(State()), all[..k])
          {
            assert all[..k + 1][..k] == all[..k];
            RecordMetrics(all[k]);
          }
          assert all[..|all|] == all;
          return Some(all), false;
        case Fails =>
          sums := sums[EXCEPTIONS := Sum(sums, EXCEPTIONS) + 1.0];
          return None, TooMany(State());
      }
    }

    /** What is done at the end of a batch; the budget is gone with the counts. */
    method Reset()
      modifies this
      ensures State() == Context(None, map[], map[], 0.0)
    {
      total, sums, divisors, budget := None, map[], map[], 0.0;
    }
  }

  // ---------------------------------------------------------- what a run amounts to

  ghost predicate Within(order: seq<nat>, n: nat) {
    forall k :: 0 <= k < |order| ==> order[k] < n
  }

  /** Each of the first n numbers once. */
  ghost predicate Permutes(order: seq<nat>, n: nat) {
    && |order| == n && Within(order, n)
    && forall j, k :: 0 <= j < k < |order| ==> order[j] != order[k]
  }

  function Replay(c: Context, results: seq<Outcome>, order: seq<nat>): (r: Context)
    requires Within(order, |results|)
    ensures r.total == c.total && r.budget == c.budget
  {
    if order == [] then c
    else Completed(Replay(c, results, order[..|order| - 1]), results[order[|order| - 1]])
  }

  /** The completion at this place of the order raises. */
  predicate RaisesAt(c: Context, results: seq<Outcome>, order: seq<nat>, k: nat)
    requires Within(order, |results|) && k < |order|
  {
    Raises(Replay(c, results, order[..k]), results[order[k]])
  }

  function Successes(results: seq<Outcome>): seq<Group> {
    if results == [] then []
    else
      var last := results[|results| - 1];
      Successes(results[..|results| - 1]) + if last.Succeeds? then [last.group] else []
  }

  datatype Gathered = Groups(groups: seq<Group>) | Raised

  /** All groups are awaited at once and complete in any order; without an exception the result
      is the successes in input order. */
  method GatherGroups(results: seq<Outcome>, budget: real, order: seq<nat>) returns (gathered: Gathered)
    requires Permutes(order, |results|)
    ensures gathered.Raised? <==>
      exists k :: 0 <= k < |order| && RaisesAt(Context(Some(|results|), map[], map[], budget), results, order, k)
    ensures gathered.Groups? ==> gathered.groups == Successes(results)
  {
    hide Replay, RaisesAt, Completed, Raises, Successes;
    var context := new GatherContext(Some(|results|), budget);
    ghost var start := context.State();
    var slots: map<nat, Option<Group>> := map[];
    NothingReplayed(start, results, order);
    for k := 0 to |order|
      invariant context.State() == Replay(start, results, order[..k])
      invariant forall j :: 0 <= j < k ==> !RaisesAt(start, results, order, j)
      invariant forall j :: 0 <= j < k ==> order[j] in slots
      invariant forall i <- slots :: Slotted(results, slots, i)
    {
      ReplayStep(start, results, order, k);
      var group, raised := context.WrapGroup(results[order[k]]);
      if raised {
        return Raised;
      }
      slots := slots[order[k] := group];
    }
    AllTaken(order, |results|);
    forall i: nat | i < |results| ensures Slotted(results, slots, i) {
      assert i in order;
      var k :| 0 <= k < |order| && order[k] == i;
      assert order[k] in slots;
    }
    var groups := Collect(results, slots);
    return Groups(groups);
  }

  ghost predicate Slotted(results: seq<Outcome>, slots: map<nat, Option<Group>>, i: nat) {
    i in slots && i < |results| && slots[i] == if results[i].Succeeds? then Some(results[i].group) else None
  }

  /** The results in input order, without those that failed. */
  method Collect(results: seq<Outcome>, slots: map<nat, Option<Group>>) returns (groups: seq<Group>)
    requires forall i: nat | i < |results| :: Slotted(results, slots, i)
    ensures groups == Successes(results)
  {
    groups := [];
    for i := 0 to |results|
      invariant groups == Successes(results[..i])
    {
      assert results[..i + 1][..i] == results[..i] && Slotted(results, slots, i);
      if slots[i].Some? {
        groups := groups + [slots[i].value];
      }
    }
    assert results[..|results|] == results;
  }

  lemma ReplayStep(c: Context, results: seq<Outcome>, order: seq<nat>, k: nat)
    requires Within(order, |results|) && k < |order|
    ensures Replay(c, results, order[..k + 1]) == Completed(Replay(c, results, order[..k]), results[order[k]])
    ensures RaisesAt(c, results, order, k) == Raises(Replay(c, results, order[..k]), results[order[k]])
  {
    assert order[..k + 1][..k] == order[..k];
  }

  lemma NothingReplayed(c: Context, results: seq<Outcome>, order: seq<nat>)
    requires Within(order, |results|)
    ensures Replay(c, results, order[..0]) == c
  {
  }

  function UpTo(n: nat): (s: set<nat>)
    ensures |s| == n && forall i: nat :: i in s <==> i < n
  {
    if n == 0 then {} else UpTo(n - 1) + {n - 1}
  }

  lemma AllTaken(order: seq<nat>, n: nat)
    requires Permutes(order, n)
    ensures forall i: nat | i < n :: i in order
  {
    var taken := set k | 0 <= k < n :: order[k];
    TakenCount(order, n, n);
    SubsetIsAll(taken, UpTo(n));
    forall i: nat | i < n ensures i in order {
      assert i in taken;
    }
  }

  lemma {:induction false} TakenCount(order: seq<nat>, n: nat, k: nat)
    requires Permutes(order, n) && k <= n
    ensures |set j | 0 <= j < k :: order[j]| == k
  {
    if k > 0 {
      TakenCount(order, n, k - 1);
      assert (set j | 0 <= j < k :: order[j]) == (set j | 0 <= j < k - 1 :: order[j]) + {order[k - 1]};
    }
  }

  lemma SubsetIsAll(a: set<nat>, b: set<nat>)
    requires a <= b && |a| == |b|
    ensures a == b
  {
    assert b == a + (b - a);
  }

  // ------------------------------------------------------------- order is no matter

  /** How a completion is weighed: by what it adds to a sum, by the least or the most that it can add to
      the count of failures before another completion, or by whether it succeeds. */
  datatype Weighing = Named(name: string) | Lower | Upper | Wins

  function Share(o: Outcome, w: Weighing): real {
    match o
    case Fails => if w.Wins? || (w.Named? && w.name != EXCEPTIONS) then 0.0 else 1.0
    case Succeeds(group) =>
      match w
      case Named(name) => GroupShare(group, name)
      case Lower => if GroupShare(group, EXCEPTIONS) < 0.0 then GroupShare(group, EXCEPTIONS) else 0.0
      case Upper => if GroupShare(group, EXCEPTIONS) > 0.0 then GroupShare(group, EXCEPTIONS) else 0.0
      case Wins => 1.0
  }

  function GroupShare(group: Group, name: string): real {
    if group == [] then 0.0
    else GroupShare(group[..|group| - 1], name) + TrajectoryShare(group[|group| - 1], name)
  }

  function TrajectoryShare(t: Trajectory, name: string): real {
    (if name == REWARD then t.reward else 0.0) + Sum(t.metrics, name)
  }

  function Shares(results: seq<Outcome>, order: seq<nat>, w: Weighing): real
    requires Within(order, |results|)
  {
    if order == [] then 0.0
    else Shares(results, order[..|order| - 1], w) + Share(results[order[|order| - 1]], w)
  }

  lemma {:induction false} GroupAdds(c: Context, group: Group, name: string)
    ensures Sum(RecordedAll(c, group).sums, name) == Sum(c.sums, name) + GroupShare(group, name)
  {
    if group != [] {
      GroupAdds(c, group[..|group| - 1], name);
    }
  }

  /** Every sum is what the completions so far add to it. */
  lemma {:induction false} ReplayAdds(c: Context, results: seq<Outcome>, order: seq<nat>, name: string)
    requires Within(order, |results|)
    ensures Sum(Replay(c, results, order).sums, name) == Sum(c.sums, name) + Shares(results, order, Named(name))
  {
    if order != [] {
      var before, last := order[..|order| - 1], results[order[|order| - 1]];
      ReplayAdds(c, results, before, name);
      if last.Succeeds? {
        GroupAdds(Replay(c, results, before), last.group, name);
      }
    }
  }

  /** What all results from one on add, each counted once. */
  function Total(results: seq<Outcome>, from: nat, n: nat, w: Weighing): real
    requires n <= |results|
  {
    if n <= from then 0.0 else Total(results, from, n - 1, w) + Share(results[n - 1], w)
  }

  /** Each number from one on and below n once. */
  ghost predicate Covers(order: seq<nat>, from: nat, n: nat) {
    && (forall k :: 0 <= k < |order| ==> from <= order[k] < n)
    && (forall j, k :: 0 <= j < k < |order| ==> order[j] != order[k])
    && forall i: nat | from <= i < n :: i in order
  }

  lemma PermutesCovers(order: seq<nat>, n: nat)
    requires Permutes(order, n)
    ensures Covers(order, 0, n)
  {
    AllTaken(order, n);
  }

  lemma {:induction false} SharesWithout(results: seq<Outcome>, order: seq<nat>, k: nat, w: Weighing)
    requires Within(order, |results|) && k < |order|
    ensures Within(Without(order, k), |results|)
    ensures Shares(results, order, w) == Shares(results, Without(order, k), w) + Share(results[order[k]], w)
  {
    var n := |order| - 1;
    if k < n {
      SharesWithout(results, order[..n], k, w);
      assert Without(order, k)[..n - 1] == Without(order[..n], k);
      assert Without(order, k)[n - 1] == order[n];
    } else {
      assert Without(order, k) == order[..n];
    }
  }

  lemma TakeLast(order: seq<nat>, from: nat, n: nat) returns (k: nat)
    requires Covers(order, from, n) && from < n
    ensures k < |order| && order[k] == n - 1 && Covers(Without(order, k), from, n - 1)
  {
    assert n - 1 in order;
    k :| 0 <= k < |order| && order[k] == n - 1;
    var rest := Without(order, k);
    assert forall j :: 0 <= j < |rest| ==> rest[j] == order[if j < k then j else j + 1];
    forall i: nat | from <= i < n - 1 ensures i in rest {
      assert i in order;
      var j :| 0 <= j < |order| && order[j] == i;
      assert rest[if j < k then j else j - 1] == i;
    }
  }

  lemma CoversWithin(order: seq<nat>, from: nat, n: nat, m: nat)
    requires Covers(order, from, n) && n <= m
    ensures Within(order, m) && (n <= from ==> order == [])
  {
    assert order != [] ==> from <= order[0] < n;
  }

  /** What the completions add in any order is what they add in input order. */
  lemma {:induction false} SharesInAnyOrder(results: seq<Outcome>, order: seq<nat>, from: nat, n: nat, w: Weighing)
    requires Covers(order, from, n) && n <= |results|
    ensures Within(order, |results|) && Shares(results, order, w) == Total(results, from, n, w)
    decreases n
  {
    CoversWithin(order, from, n, |results|);
    if from < n {
      hide Shares, Share, Without, Covers, Within;
      var k := TakeLast(order, from, n);
      SharesWithout(results, order, k, w);
      SharesInAnyOrder(results, Without(order, k), from, n - 1, w);
    }
  }

  /** Once all have completed, every sum is the one in input order. */
  lemma SumsInAnyOrder(c: Context, results: seq<Outcome>, order: seq<nat>, name: string)
    requires Permutes(order, |results|)
    ensures Sum(Replay(c, results, order).sums, name) == Sum(c.sums, name) + Total(results, 0, |results|, Named(name))
  {
    ReplayAdds(c, results, order, name);
    PermutesCovers(order, |results|);
    SharesInAnyOrder(results, order, 0, |results|, Named(name));
  }
}
