/** The checked wrappers around a rank's own checks: a local failure is first exchanged, then
    every rank raises or none does, so that no rank leaves its peers waiting in a collective. */
module CheckedRanks {
  import opened Wrappers

  /** How one check ended.  An exception outside the class that the wrapper catches escapes. */
  datatype Outcome<T> = Returned(value: T) | Failed(trace: string) | Escaped

  datatype Wrapper = OnRankZero | OnAllRanks

  /** `grouped` says whether a process group is initialised; without one there is one rank. */
  datatype Setting = Setting(wrapper: Wrapper, title: string, grouped: bool, size: nat)

  /** Where one rank stands in the wrapper. */
  datatype Rank<T> =
    | Checking
    | Exchanging(error: Option<string>, kept: Option<T>)
    | AtBarrier(fault: string)
    | Raised(message: string)
    | Ended(result: Option<T>)
    | Left

  datatype Action<T> = Check(rank: nat, outcome: Outcome<T>) | Exchange | Meet

  function Decimal(n: nat): string {
    if n < 10 then [('0' as int + n) as char] else Decimal(n / 10) + [('0' as int + n % 10) as char]
  }

  /** What one failing rank adds to the combined message. */
  function Part(rank: nat, trace: string): (part: string)
    ensures part != ""
  {
    "rank " + Decimal(rank) + ":\n" + trace
  }

  function Separated(before: string): string {
    if before == "" then "" else before + "\n"
  }

  /** The parts of the failing ranks, in rank order, one to a paragraph. */
  function Combined(errors: seq<Option<string>>): string {
    if errors == [] then ""
    else
      var before, last := Combined(errors[..|errors| - 1]), errors[|errors| - 1];
      if last.None? then before else Separated(before) + Part(|errors| - 1, last.value)
  }

  /** The error on which every rank acts once the errors are exchanged. */
  function Shared(setting: Setting, errors: seq<Option<string>>): Option<string>
    requires |errors| > 0
  {
    if setting.wrapper.OnRankZero? || !setting.grouped then errors[0]
    else if Combined(errors) == "" then None else Some(Combined(errors))
  }

  function Message(title: string, error: string): string {
    title + " failed:\n" + error
  }

  ghost predicate Proper(setting: Setting) {
    setting.size > 0 && (!setting.grouped ==> setting.size == 1)
  }

  function Errors<T>(world: seq<Rank<T>>): seq<Option<string>>
    requires forall r :: 0 <= r < |world| ==> world[r].Exchanging?
  {
    seq(|world|, r requires 0 <= r < |world| => world[r].error)
  }

  /** A rank has done its own check; only rank 0 has one under the first wrapper. */
  function Checked<T>(setting: Setting, rank: nat, outcome: Outcome<T>): Rank<T> {
    if setting.wrapper.OnRankZero? && rank != 0 then Exchanging(None, None)
    else
      match outcome
      case Returned(value) => Exchanging(None, if setting.wrapper.OnRankZero? then Some(value) else None)
      case Failed(trace) => Exchanging(Some(trace), None)
      case Escaped => Left
  }

  predicate Enabled<T>(setting: Setting, world: seq<Rank<T>>, a: Action<T>) {
    match a
    case Check(r, _) => r < |world| && world[r].Checking?
    case Exchange => |world| > 0 && forall r :: 0 <= r < |world| ==> world[r].Exchanging?
    case Meet => |world| > 0 && forall r :: 0 <= r < |world| ==> world[r].AtBarrier?
  }

  function Act<T>(setting: Setting, world: seq<Rank<T>>, a: Action<T>): (next: seq<Rank<T>>)
    requires Enabled(setting, world, a)
    ensures |next| == |world|
  {
    match a
    case Check(r, outcome) => world[r := Checked(setting, r, outcome)]
    case Exchange =>
      var shared := Shared(setting, Errors(world));
      seq(|world|, r requires 0 <= r < |world| =>
        if shared.None? then Ended(world[r].kept) else AtBarrier(shared.value))
    case Meet =>
      seq(|world|, r requires 0 <= r < |world| => Raised(Message(setting.title, world[r].fault)))
  }

  function Start<T>(setting: Setting): seq<Rank<T>> {
    seq(setting.size, _ => Checking)
  }

  /** How the check of each rank ended, None while it is running. */
  type History<T> = seq<Option<Outcome<T>>>

  function Noted<T>(history: History<T>, a: Action<T>): History<T> {
    if a.Check? && a.rank < |history| then history[a.rank := Some(a.outcome)] else history
  }

  /** The check of this rank counts: under the first wrapper only the one of rank 0 is made. */
  predicate Counts(setting: Setting, rank: nat) {
    setting.wrapper.OnAllRanks? || rank == 0
  }

  ghost predicate SomeFailed<T>(setting: Setting, history: History<T>) {
    exists r :: 0 <= r < |history| && Counts(setting, r) && history[r].Some? && history[r].value.Failed?
  }

  ghost predicate SomeEscaped<T>(setting: Setting, history: History<T>) {
    exists r :: 0 <= r < |history| && Counts(setting, r) && history[r].Some? && history[r].value.Escaped?
  }

  /** The error of every rank, by what its check did. */
  function ErrorsOf<T>(setting: Setting, history: History<T>): seq<Option<string>> {
    seq(|history|, r requires 0 <= r < |history| =>
      if Counts(setting, r) && history[r].Some? && history[r].value.Failed? then Some(history[r].value.trace) else None)
  }

  /** The three stages of a call: checking and exchanging at each rank's own pace; then all at
      the barrier and raising with one message; or all ended. */
  ghost predicate Consistent<T>(setting: Setting, world: seq<Rank<T>>, history: History<T>) {
    && |world| == |history| == setting.size && setting.size > 0
    && ((forall r :: 0 <= r < |world| ==>
           world[r] == if history[r].None? then Checking else Checked(setting, r, history[r].value))
        || ((forall r :: 0 <= r < |history| ==> history[r].Some?) && !SomeEscaped(setting, history)
            && Over(setting, world, history)))
  }

  ghost predicate Over<T>(setting: Setting, world: seq<Rank<T>>, history: History<T>)
    requires |world| == |history| > 0
  {
    var shared := Shared(setting, ErrorsOf(setting, history));
    if shared.None? then
      forall r :: 0 <= r < |world| ==> world[r] == Ended(ValueOf(setting, history, r))
    else
      (forall r :: 0 <= r < |world| ==> world[r] == AtBarrier(shared.value))
      || forall r :: 0 <= r < |world| ==> world[r] == Raised(Message(setting.title, shared.value))
  }

  /** What a call that does not raise returns: the value of the check on rank 0, else nothing. */
  function ValueOf<T>(setting: Setting, history: History<T>, rank: nat): Option<T>
    requires rank < |history|
  {
    if setting.wrapper.OnRankZero? && rank == 0 && history[0].Some? && history[0].value.Returned?
    then Some(history[0].value.value) else None
  }

  lemma {:induction false} CombinedIsEmptyIffNoneFailed(errors: seq<Option<string>>)
    ensures Combined(errors) == "" <==> forall r :: 0 <= r < |errors| ==> errors[r].None?
  {
    if errors != [] {
      var before := errors[..|errors| - 1];
      CombinedIsEmptyIffNoneFailed(before);
      assert forall r :: 0 <= r < |before| ==> before[r] == errors[r];
    }
  }

  /** The combined message quotes every failing rank, after the failing ranks before it. */
  lemma {:induction false} EveryFailureIsQuoted(errors: seq<Option<string>>, rank: nat) returns (rest: string)
    requires rank < |errors| && errors[rank].Some?
    ensures Combined(errors) == Separated(Combined(errors[..rank])) + Part(rank, errors[rank].value) + rest
    ensures Part(rank, errors[rank].value) == "rank " + Decimal(rank) + ":\n" + errors[rank].value
    ensures rest == "" || rest[0] == '\n'
    ensures Separated(Combined(errors[..rank])) ==
      if Combined(errors[..rank]) == "" then "" else Combined(errors[..rank]) + "\n"
  {
    var before, last := errors[..|errors| - 1], errors[|errors| - 1];
    if rank == |errors| - 1 {
      rest := "";
    } else {
      assert before[..rank] == errors[..rank];
      var inner := EveryFailureIsQuoted(before, rank);
      rest := if last.None? then inner else inner + ("\n" + Part(|errors| - 1, last.value));
      QuoteExtends(errors, Separated(Combined(errors[..rank])) + Part(rank, errors[rank].value), inner);
    }
  }

  lemma QuoteExtends(errors: seq<Option<string>>, first: string, inner: string)
    requires |errors| > 0 && first != "" && Combined(errors[..|errors| - 1]) == first + inner
    ensures var last := errors[|errors| - 1];
      Combined(errors) == first + if last.None? then inner else inner + ("\n" + Part(|errors| - 1, last.value))
  {
    var last := errors[|errors| - 1];
    if last.Some? {
      Regrouped(first, inner, "\n", Part(|errors| - 1, last.value));
    }
  }

  lemma Regrouped(a: string, b: string, c: string, d: string)
    ensures a + b + c + d == a + (b + (c + d))
  {
  }

  /** The number that a numeral stands for. */
  ghost function Number(numeral: string): int {
    if numeral == "" then 0 else Number(numeral[..|numeral| - 1]) * 10 + (numeral[|numeral| - 1] as int - '0' as int)
  }

  /** A rank is written in decimal digits, without leading zeros. */
  lemma {:induction false} DecimalIs(n: nat)
    ensures Number(Decimal(n)) == n && Decimal(n) != ""
    ensures forall digit <- Decimal(n) :: '0' <= digit <= '9'
    ensures Decimal(n)[0] == '0' ==> n == 0
  {
    if n >= 10 {
      DecimalIs(n / 10);
    }
  }

  /** What is raised: under the first wrapper, or without a group, what the check of rank 0 left; else the
      combined message of all that failed. */
  lemma SharedIs<T>(setting: Setting, history: History<T>) returns (errors: seq<Option<string>>)
    requires Proper(setting) && |history| == setting.size
    ensures |errors| == |history| && forall r :: 0 <= r < |errors| ==>
      errors[r] == if (setting.wrapper.OnAllRanks? || r == 0) && history[r].Some? && history[r].value.Failed?
                   then Some(history[r].value.trace) else None
    ensures Shared(setting, ErrorsOf(setting, history)) ==
      if setting.wrapper.OnRankZero? || !setting.grouped then errors[0]
      else if SomeFailed(setting, history) then Some(Combined(errors)) else None
    ensures forall error :: Message(setting.title, error) == setting.title + " failed:\n" + error
  {
    errors := ErrorsOf(setting, history);
    SharedIffSomeFailed(setting, history);
    hide Combined;
  }

  lemma SharedIffSomeFailed<T>(setting: Setting, history: History<T>)
    requires Proper(setting) && |history| == setting.size
    ensures Shared(setting, ErrorsOf(setting, history)).Some? == SomeFailed(setting, history)
  {
    var errors := ErrorsOf(setting, history);
    CombinedIsEmptyIffNoneFailed(errors);
    if SomeFailed(setting, history) {
      var r :| 0 <= r < |history| && Counts(setting, r) && history[r].Some? && history[r].value.Failed?;
      assert errors[r].Some?;
    } else {
      assert forall r :: 0 <= r < |errors| ==> errors[r].None?;
    }
  }

  lemma ActKeepsConsistent<T>(setting: Setting, world: seq<Rank<T>>, history: History<T>, a: Action<T>)
    requires Proper(setting) && Consistent(setting, world, history) && Enabled(setting, world, a)
    ensures Consistent(setting, Act(setting, world, a), Noted(history, a))
  {
    hide Shared;
    if a.Exchange? {
      assert Errors(world) == ErrorsOf(setting, history);
    }
  }

  function Pending<T>(world: seq<Rank<T>>): (n: nat)
    ensures n <= |world|
  {
    if world == [] then 0 else (if world[0].Checking? then 1 else 0) + Pending(world[1..])
  }

  lemma {:induction false} OneFewerPending<T>(world: seq<Rank<T>>, r: nat, x: Rank<T>)
    requires r < |world| && world[r].Checking? && !x.Checking?
    ensures Pending(world[r := x]) == Pending(world) - 1
  {
    if r == 0 {
      assert world[r := x][1..] == world[1..];
    } else {
      assert world[r := x][1..] == world[1..][r - 1 := x];
      OneFewerPending(world[1..], r - 1, x);
    }
  }

  lemma {:induction false} NonePending<T>(world: seq<Rank<T>>)
    requires forall r :: 0 <= r < |world| ==> !world[r].Checking?
    ensures Pending(world) == 0
  {
    if world != [] {
      NonePending(world[1..]);
    }
  }

  /** An upper bound on the steps left: the checks, the exchange and the barrier. */
  function Remaining<T>(world: seq<Rank<T>>): nat
    requires |world| > 0
  {
    Pending(world) + (if world[0].AtBarrier? then 1 else if world[0].Raised? || world[0].Ended? then 0 else 2)
  }

  lemma ActUsesUp<T>(setting: Setting, world: seq<Rank<T>>, history: History<T>, a: Action<T>)
    requires Proper(setting) && Consistent(setting, world, history) && Enabled(setting, world, a)
    ensures Remaining(Act(setting, world, a)) < Remaining(world)
  {
    hide Shared;
    match a
    case Check(r, outcome) => OneFewerPending(world, r, Checked(setting, r, outcome));
    case Exchange => NonePending(Act(setting, world, a));
    case Meet => NonePending(Act(setting, world, a));
  }

  ghost predicate Possible<T>(setting: Setting, world: seq<Rank<T>>, actions: seq<Action<T>>)
    decreases |actions|
  {
    actions != [] ==>
      Enabled(setting, world, actions[0]) && Possible(setting, Act(setting, world, actions[0]), actions[1..])
  }

  ghost function Execute<T>(setting: Setting, world: seq<Rank<T>>, actions: seq<Action<T>>): seq<Rank<T>>
    requires Possible(setting, world, actions)
    decreases |actions|
  {
    if actions == [] then world else Execute(setting, Act(setting, world, actions[0]), actions[1..])
  }

  ghost function Told<T>(history: History<T>, actions: seq<Action<T>>): (told: History<T>)
    ensures |told| == |history|
    decreases |actions|
  {
    if actions == [] then history else Told(Noted(history, actions[0]), actions[1..])
  }

  lemma {:induction false} RunIsConsistent<T>(setting: Setting, world: seq<Rank<T>>, history: History<T>,
                                              actions: seq<Action<T>>)
    requires Proper(setting) && Consistent(setting, world, history) && Possible(setting, world, actions)
    ensures Consistent(setting, Execute(setting, world, actions), Told(history, actions))
    ensures |actions| <= Remaining(world)
    decreases |actions|
  {
    if actions != [] {
      ActKeepsConsistent(setting, world, history, actions[0]);
      ActUsesUp(setting, world, history, actions[0]);
      RunIsConsistent(setting, Act(setting, world, actions[0]), Noted(history, actions[0]), actions[1..]);
    }
  }

  /** No rank can take another step. */
  ghost predicate Quiet<T>(setting: Setting, world: seq<Rank<T>>) {
    && !Enabled(setting, world, Exchange) && !Enabled(setting, world, Meet)
    && forall r :: 0 <= r < |world| ==> !Enabled(setting, world, Check(r, Escaped))
  }

  /** Once nothing more can happen: a rank waits for its peers only if some check escaped the
      wrapper; else, if some check failed, every rank has raised the same message, and if none did,
      every rank has returned.  No rank raises or returns before that is settled. */
  ghost predicate Settled<T>(setting: Setting, world: seq<Rank<T>>, history: History<T>) {
    && |world| == |history| == setting.size > 0
    && ((exists r :: 0 <= r < |world| && world[r].Raised?) ==>
         !SomeEscaped(setting, history) && SomeFailed(setting, history))
    && (SomeEscaped(setting, history) ==> forall r :: 0 <= r < |world| ==>
          world[r].Checking? || world[r].Exchanging? || world[r].Left?)
    && (Quiet(setting, world) && !SomeEscaped(setting, history) ==>
          var shared := Shared(setting, ErrorsOf(setting, history));
          && shared.Some? == SomeFailed(setting, history)
          && forall r :: 0 <= r < |world| ==>
               world[r] == if shared.Some? then Raised(Message(setting.title, shared.value))
                           else Ended(ValueOf(setting, history, r)))
  }

  lemma ConsistentIsSettled<T>(setting: Setting, world: seq<Rank<T>>, history: History<T>)
    requires Proper(setting) && Consistent(setting, world, history)
    ensures Settled(setting, world, history)
  {
    SharedIffSomeFailed(setting, history);
    hide Shared, ErrorsOf, Message;
    if Quiet(setting, world) && !SomeEscaped(setting, history) {
      QuietIsOver(setting, world, history);
    }
  }

  /** All or none, however the ranks interleave, and after at most one step a rank and two more. */
  lemma AllRaiseOrNone<T>(setting: Setting, actions: seq<Action<T>>)
    requires Proper(setting) && Possible(setting, Start(setting), actions)
    ensures Settled(setting, Execute(setting, Start(setting), actions), Told(seq(setting.size, _ => None), actions))
    ensures |actions| <= setting.size + 2
  {
    var none: History<T> := seq(setting.size, _ => None);
    hide Shared, Possible, Execute, Told, Settled;
    RunIsConsistent(setting, Start(setting), none, actions);
    ConsistentIsSettled(setting, Execute(setting, Start(setting), actions), Told(none, actions));
  }

  lemma QuietIsOver<T>(setting: Setting, world: seq<Rank<T>>, history: History<T>)
    requires Proper(setting) && Consistent(setting, world, history)
    requires Quiet(setting, world) && !SomeEscaped(setting, history)
    ensures Over(setting, world, history) && forall r :: 0 <= r < |world| ==> !world[r].AtBarrier?
  {
    forall r | 0 <= r < |world| ensures !world[r].Checking? {
      assert !Enabled(setting, world, Check(r, Escaped));
    }
  }
}
