/** The supervisor's verdict: which exit code it may give, and what it attempts on the way out.
    Workers, signals and the clock are given by a schedule; receipts are the attempt's files. */
module Supervision {
  import opened Wrappers

  datatype Status =
    | Init | Pending | SettingUp | Running
    | Succeeded | Failed | FailedSetup | FailedDriver | Cancelled
    | Missing

  /** How a bounded worker ended: zero exit, non-zero exit, its own time limit, or an interrupt. */
  datatype Fate = Done | Exited | Expired | Interrupted

  /** What a launch worker got done before it ended; a zero exit means all of it. */
  datatype Launch = NothingSent | Attempted | Requested(request: nat) | Launched(request: nat, job: nat)

  /** One of the supervisor's steps.  `signal` says that an interrupt is delivered outside a worker. */
  datatype Turn = Turn(signal: bool, elapsed: real, fate: Fate, launch: Launch, status: Status)

  datatype JobFile = JobFile(owner: string, job: nat)

  datatype RequestFile = RequestFile(owner: string, request: nat)

  datatype StatusFile = StatusFile(owner: string, job: nat, status: Status)

  datatype ResultFile = Observed(file: StatusFile) | Unconfirmed(owner: string) | NotRun(owner: string)

  datatype Operation = Logs | CancelJob(job: nat) | CancelRequest(request: nat) | StopApi

  datatype Ending = Ending(operation: Operation, success: bool)

  /** What a turn is spent on: polling up to the verdict and its receipt, the receipt of a failure, the
      last look for the job, and on the way out the moments between two workers, the workers
      themselves and the receipt of their endings. */
  datatype Doing =
    | Launching | Surveying | Querying(job: nat) | Reading | Waiting | Recording
    | Reporting | Recovering
    | Between | Attempting(operation: Operation) | Diagnosing

  datatype Outcome = Exit(code: nat) | Raised

  /** How a run of the supervisor went: the turn in which polling was over and the one in which the way out
      began, whether the status was terminal, whether the job was known by then, and whether an
      interrupt came on the way out. */
  datatype Account = Account(decided: nat, left: nat, terminal: bool, knew: bool, torn: bool)

  /** What one query leads to. */
  datatype Reply = GoOn | GiveUp | Verdict(file: StatusFile)

  /** The provider's answer to one status query, and the turn in which it came. */
  datatype Answer = Answer(job: nat, status: Status, turn: nat)

  predicate Nonterminal(s: Status) {
    s in {Init, Pending, SettingUp, Running}
  }

  lemma TenStatuses(s: Status)
    ensures Nonterminal(s) <==> s !in {Succeeded, Failed, FailedSetup, FailedDriver, Cancelled, Missing}
  {
    match s
    case Init =>
    case Pending =>
    case SettingUp =>
    case Running =>
    case Succeeded =>
    case Failed =>
    case FailedSetup =>
    case FailedDriver =>
    case Cancelled =>
    case Missing =>
  }

  function ExitCode(s: Status): nat
    requires !Nonterminal(s)
  {
    if s == Succeeded then 0 else if s == Cancelled then 103 else if s == Missing then 102 else 100
  }

  /** The exit code tells the statuses apart, and 0 is for success alone. */
  ghost predicate Means(code: nat, s: Status) {
    && (code == 0 <==> s == Succeeded) && (code == 103 <==> s == Cancelled) && (code == 102 <==> s == Missing)
    && (code == 100 <==> s in {Failed, FailedSetup, FailedDriver})
  }

  function Min(a: real, b: real): real {
    if a <= b then a else b
  }

  /** No three failures in a row. */
  ghost predicate NeverThrice(failures: seq<bool>) {
    forall i :: 0 <= i < |failures| - 2 ==> !(failures[i] && failures[i + 1] && failures[i + 2])
  }

  /** The failures counted since the last success. */
  function Trailing(failures: seq<bool>): nat {
    if failures == [] || !failures[|failures| - 1] then 0 else 1 + Trailing(failures[..|failures| - 1])
  }

  lemma FewTrailing(failures: seq<bool>, failed: bool)
    requires NeverThrice(failures)
    ensures Trailing(failures + [failed]) == if failed then Trailing(failures) + 1 else 0
    ensures !failed || Trailing(failures) < 2 ==> NeverThrice(failures + [failed])
  {
    var more := failures + [failed];
    assert more[..|more| - 1] == failures;
    if |failures| >= 1 {
      assert Trailing(failures[..|failures| - 1]) >= 0;
    }
  }

  lemma NoneTrailing()
    ensures NeverThrice([]) && Trailing([]) == 0
  {
  }

  /** The turns of the way out: a moment before each item, then the item. */
  ghost function Path(items: seq<Doing>): (path: seq<Doing>)
    ensures |path| == 2 * |items|
  {
    if items == [] then [] else Path(items[..|items| - 1]) + [Between, items[|items| - 1]]
  }

  lemma PathOne(items: seq<Doing>, k: nat)
    requires k < |items|
    ensures Path(items[..k + 1]) == Path(items[..k]) + [Between, items[k]]
  {
    assert items[..k + 1][..k] == items[..k];
  }

  /** The planned operations, and the receipt of how they ended. */
  function Items(plan: seq<Operation>): (items: seq<Doing>)
    ensures |items| == |plan| + 1 && items[|plan|] == Diagnosing
    ensures forall k :: 0 <= k < |plan| ==> items[k] == Attempting(plan[k])
  {
    seq(|plan|, k requires 0 <= k < |plan| => Attempting(plan[k])) + [Diagnosing]
  }

  function Least(m: nat, n: nat): nat {
    if m <= n then m else n
  }

  class Supervisor {
    const owner: string
    const admission: real
    const cleanup: real
    const schedule: seq<Turn>
    const origin: real
    var turn: nat
    var now: real
    var attempted: bool
    var request: Option<RequestFile>
    var job: Option<JobFile>
    var status: Option<StatusFile>
    var result: Option<ResultFile>
    var diagnostics: Option<seq<Ending>>
    ghost var launched: Option<nat>
    ghost var answers: seq<Answer>
    ghost var operations: seq<Operation>
    /** What every turn so far was spent on. */
    ghost var log: seq<Doing>

    constructor (owner: string, admission: real, cleanup: real, schedule: seq<Turn>, now: real)
      ensures Valid() && launched.None? && answers == [] && operations == [] && log == []
      ensures this.owner == owner && this.admission == admission && this.cleanup == cleanup && this.schedule == schedule
      ensures this.now == now == origin && !attempted && request.None? && job.None? && status.None? && result.None? &&
        diagnostics.None?
    {
      this.owner, this.admission, this.cleanup, this.schedule := owner, admission, cleanup, schedule;
      this.now, origin, turn, attempted := now, now, 0, false;
      request, job, status, result, diagnostics, launched := None, None, None, None, None, None;
      answers, operations, log := [], [], [];
    }

    /** The clock shows what the turns so far have taken, the launch is one that was made, and every
        answer is one that was given. */
    ghost predicate Valid()
      reads this`turn, this`log, this`now, this`launched, this`answers
    {
      && turn == |log| && now == ClockAt(turn)
      && (launched.Some? ==> exists i :: LaunchedIn(log, i, launched.value))
      && (forall a <- answers :: Given(log, a))
    }

    function Spent(n: nat): real {
      if n == 0 then 0.0 else Spent(n - 1) + if TurnAt(n - 1).elapsed > 0.0 then TurnAt(n - 1).elapsed else 0.0
    }

    /** The time after n turns. */
    function ClockAt(n: nat): real {
      origin + Spent(n)
    }

    /** The launch worker returned this job in this turn. */
    ghost predicate LaunchedIn(log: seq<Doing>, i: nat, job: nat) {
      i < |log| && log[i] == Launching && TurnAt(i).launch.Launched? && TurnAt(i).launch.job == job
    }

    /** The provider gave this answer to a query for this job. */
    ghost predicate Given(log: seq<Doing>, a: Answer) {
      && a.turn < |log| && log[a.turn] == Querying(a.job)
      && TurnAt(a.turn).fate == Done && TurnAt(a.turn).status == a.status
    }

    /** How the queries from turn i on went: true for a failed one. */
    ghost function Failures(log: seq<Doing>, i: nat): (failures: seq<bool>)
    {
      if |log| <= i then []
      else
        var n := |log| - 1;
        Failures(log[..n], i) + if log[n].Querying? then [TurnAt(n).fate != Done] else []
    }

    /** When the schedule is over the program is interrupted for good. */
    function TurnAt(i: nat): Turn {
      if i < |schedule| then schedule[i] else Turn(true, 0.0, Interrupted, NothingSent, Missing)
    }

    /** An interrupt is delivered outside a worker in this turn. */
    predicate SignalAt(i: nat) {
      TurnAt(i).signal
    }

    // ------------------------------------------------------------- the course of polling

    /** The launch worker gets everything done in this turn. */
    predicate Launches(i: nat) {
      !SignalAt(i) && TurnAt(i).fate == Done && TurnAt(i).launch.Launched?
    }

    /** An interrupt comes in this turn, outside the worker or while it runs. */
    predicate Broken(i: nat) {
      SignalAt(i) || TurnAt(i).fate == Interrupted
    }

    predicate Over(i: nat, deadline: real) {
      ClockAt(i + 1) >= deadline
    }

    /** Polling ends with this turn: interrupted, out of time, after three failures in a row, or with a
        verdict. */
    ghost predicate Stops(log: seq<Doing>, start: nat, i: nat, deadline: real)
      requires i < |log|
    {
      match log[i]
      case Launching => !Launches(i) || Over(i, deadline)
      case Surveying => Broken(i) || Over(i, deadline)
      case Querying(_) =>
        Broken(i) || (TurnAt(i).fate != Done && (Over(i, deadline) || Trailing(Failures(log[..i + 1], start)) >= 3))
      case Reading => SignalAt(i) || Over(i, deadline)
      case Waiting => SignalAt(i) || Over(i, deadline)
      case _ => true
    }

    /** What is done in this turn is what comes after the turn before it. */
    ghost predicate Comes(log: seq<Doing>, start: nat, i: nat)
      requires 0 < i < |log|
    {
      match log[i - 1]
      case Launching => log[i] == Surveying
      case Surveying => log[i].Querying? && LaunchedIn(log, start, log[i].job)
      case Querying(_) => log[i] == if TurnAt(i - 1).fate == Done then Reading else Waiting
      case Reading =>
        i >= 2 && log[i] == if TurnAt(i - 2).status in {Init, Pending, SettingUp, Running} then Waiting else Recording
      case Waiting => log[i].Querying? && LaunchedIn(log, start, log[i].job)
      case _ => false
    }

    /** Since the start there was nothing but polling: first the launch, and each turn after one that did
        not stop it. */
    ghost predicate Course(log: seq<Doing>, start: nat, deadline: real) {
      && start <= |log| && (start < |log| ==> log[start] == Launching)
      && forall i :: start < i < |log| ==> Comes(log, start, i) && !Stops(log, start, i - 1, deadline)
    }

    /** The course has come to its end. */
    ghost predicate Halted(log: seq<Doing>, start: nat, deadline: real) {
      |log| <= start || Stops(log, start, |log| - 1, deadline)
    }

    /** It has come to its end without a verdict. */
    ghost predicate Abandoned(log: seq<Doing>, start: nat, deadline: real) {
      Halted(log, start, deadline) && (start < |log| ==> log[|log| - 1] != Recording)
    }

    lemma CourseOne(log: seq<Doing>, start: nat, deadline: real, doing: Doing)
      requires Course(log, start, deadline) && start < |log|
      requires !Stops(log, start, |log| - 1, deadline) && Comes(log + [doing], start, |log|)
      ensures Course(log + [doing], start, deadline)
    {
      var more := log + [doing];
      forall i | start < i < |more| ensures Comes(more, start, i) && !Stops(more, start, i - 1, deadline) {
        assert more[..i] == log[..i];
        if i < |log| {
          assert Comes(log, start, i);
        }
      }
    }

    /** Before a query: nothing has interrupted, but time may be over. */
    ghost predicate Ready(log: seq<Doing>, start: nat, deadline: real) {
      && Course(log, start, deadline) && start < |log|
      && ((log[|log| - 1] == Surveying && !Broken(|log| - 1)) || (log[|log| - 1] == Waiting && !SignalAt(|log| - 1)))
    }

    /** Before a wait, likewise. */
    ghost predicate Paused(log: seq<Doing>, start: nat, deadline: real) {
      && Course(log, start, deadline) && start + 1 < |log|
      && var l := |log| - 1;
         || (log[l].Querying? && !Broken(l) && TurnAt(l).fate != Done && Trailing(Failures(log, start)) < 3)
         || (log[l] == Reading && !SignalAt(l) && !Over(l, deadline)
             && TurnAt(l - 1).status in {Init, Pending, SettingUp, Running})
    }

    /** A final answer is in hand. */
    ghost predicate Decided(log: seq<Doing>, start: nat, deadline: real) {
      && Course(log, start, deadline) && start + 1 < |log|
      && log[|log| - 1] == Reading && !SignalAt(|log| - 1) && !Over(|log| - 1, deadline)
      && TurnAt(|log| - 2).status !in {Init, Pending, SettingUp, Running}
    }

    /** One turn.  A signal outside a worker raises. */
    method Step(doing: Doing) returns (raised: bool, t: Turn)
      requires Valid()
      modifies this`turn, this`now, this`log
      ensures Valid() && turn == old(turn) + 1 && log == old(log) + [doing]
      ensures raised == SignalAt(old(turn)) && t == TurnAt(old(turn))
    {
      GivenStill(doing);
      t := TurnAt(turn);
      turn := turn + 1;
      now := now + if t.elapsed > 0.0 then t.elapsed else 0.0;
      log := log + [doing];
      raised := t.signal;
    }

    lemma GivenStill(doing: Doing)
      ensures forall a :: Given(log, a) ==> Given(log + [doing], a)
      ensures forall i, job :: LaunchedIn(log, i, job) ==> LaunchedIn(log + [doing], i, job)
    {
    }

    lemma LogIsTurn()
      requires Valid()
      ensures |log| == turn && now == ClockAt(|log|)
    {
    }

    lemma OneFailureMore(log: seq<Doing>, doing: Doing, i: nat)
      requires i <= |log|
      ensures Failures(log + [doing], i) ==
        if doing.Querying? then Failures(log, i) + [TurnAt(|log|).fate != Done] else Failures(log, i)
      ensures Failures(log, |log|) == []
    {
      assert (log + [doing])[..|log|] == log;
    }

    predicate Mine(file: Option<JobFile>) {
      file.Some? && file.value.owner == owner
    }

    /** The launch worker.  Its receipts appear in order, and a zero exit comes after the last. */
    method RunLaunch(limit: real) returns (raised: bool)
      requires Valid() && launched.None?
      modifies this`turn, this`now, this`attempted, this`request, this`job, this`launched, this`log
      ensures Valid() && log == if limit > 0.0 then old(log) + [Launching] else old(log)
      ensures !raised <==> limit > 0.0 && Launches(|old(log)|)
      ensures !raised ==> launched.Some?
      ensures launched.Some? ==>
        LaunchedIn(log, |old(log)|, launched.value) && job == Some(JobFile(owner, launched.value))
      ensures launched.None? ==> job == old(job)
      ensures limit > 0.0 && !SignalAt(|old(log)|) && TurnAt(|old(log)|).launch.Launched? ==> launched.Some?
      ensures request == Asked(old(request), |old(log)|, limit > 0.0)
      ensures attempted <==> old(attempted) || (limit > 0.0 && Sends(|old(log)|))
    {
      LogIsTurn();
      if limit <= 0.0 {
        return true;
      }
      var t;
      raised, t := Step(Launching);
      if raised {
        return;
      }
      if t.launch != NothingSent {
        attempted := true;
      }
      if t.launch.Requested? || t.launch.Launched? {
        request := Some(RequestFile(owner, t.launch.request));
      }
      if t.launch.Launched? {
        job := Some(JobFile(owner, t.launch.job));
        launched := Some(t.launch.job);
        assert LaunchedIn(log, |log| - 1, t.launch.job);
      }
      raised := !(t.fate == Done && t.launch.Launched?);
    }

    predicate Sends(i: nat) {
      !SignalAt(i) && TurnAt(i).launch != NothingSent
    }

    /** The request receipt after the launch turn. */
    function Asked(before: Option<RequestFile>, i: nat, tried: bool): Option<RequestFile> {
      if tried && !SignalAt(i) && (TurnAt(i).launch.Requested? || TurnAt(i).launch.Launched?)
      then Some(RequestFile(owner, TurnAt(i).launch.request)) else before
    }

    /** The status worker asks for the recorded job and records the answer. */
    method RunStatus(limit: real, asked: nat) returns (fate: Fate)
      requires Valid() && job == Some(JobFile(owner, asked))
      modifies this`turn, this`now, this`status, this`answers, this`log
      ensures Valid() && log == if limit > 0.0 then old(log) + [Querying(asked)] else old(log)
      ensures fate == if limit > 0.0 && !SignalAt(|old(log)|) then TurnAt(|old(log)|).fate else Interrupted
      ensures answers == old(answers) +
        if fate == Done then [Answer(asked, TurnAt(|old(log)|).status, |old(log)|)] else []
      ensures fate == Done ==> status == Some(StatusFile(owner, asked, TurnAt(|old(log)|).status))
    {
      LogIsTurn();
      if limit <= 0.0 {
        return Interrupted;
      }
      var raised, t := Step(Querying(asked));
      if raised {
        return Interrupted;
      }
      fate := t.fate;
      if fate == Done {
        answers := answers + [Answer(asked, t.status, |log| - 1)];
        status := Some(StatusFile(owner, asked, t.status));
      }
    }

    /** Launch, read the job receipt and make the first receipt of resources. */
    method Open(deadline: real) returns (begun: bool, known: Option<JobFile>)
      requires Valid() && launched.None?
      modifies this`turn, this`now, this`attempted, this`request, this`job, this`launched, this`log
      ensures Valid() && old(log) <= log && Course(log, |old(log)|, deadline)
      ensures |log| == |old(log)| <==> deadline <= old(now) || admission <= old(now)
      ensures known.Some? <==> |log| > |old(log)| && Launches(|old(log)|)
      ensures known.Some? ==> known == job && known.value.owner == owner
      ensures launched.Some? ==>
        LaunchedIn(log, |old(log)|, launched.value) && job == Some(JobFile(owner, launched.value))
      ensures launched.None? ==> job == old(job)
      ensures |log| > |old(log)| && !SignalAt(|old(log)|) && TurnAt(|old(log)|).launch.Launched? ==> launched.Some?
      ensures request == Asked(old(request), |old(log)|, |log| > |old(log)|)
      ensures attempted <==> old(attempted) || (|log| > |old(log)| && Sends(|old(log)|))
      ensures if begun then Ready(log, |old(log)|, deadline) && known.Some? && launched.Some?
              else Abandoned(log, |old(log)|, deadline)
      ensures begun ==> Failures(log, |old(log)|) == []
    {
      hide Failures, Valid, Launches, Sends, Asked;
      LogIsTurn();
      begun, known := false, None;
      var raised := RunLaunch(Min(deadline - now, admission - now));
      LogIsTurn();
      if raised || !Mine(job) {
        return;
      }
      known := job;
      if deadline - now <= 0.0 {
        return;
      }
      ghost var h := log;
      OneFailureMore(old(log), Launching, |old(log)|);
      OneFailureMore(h, Surveying, |old(log)|);
      CourseOne(h, |old(log)|, deadline, Surveying);
      var t;
      raised, t := Step(Surveying);
      begun := !raised && t.fate != Interrupted;
    }

    /** One query, and what is made of its answer or of its failure. */
    method Ask(deadline: real, known: JobFile, errors: nat, ghost start: nat) returns (reply: Reply, count: nat)
      requires Valid() && known.owner == owner && job == Some(known) && !Final(deadline)
      requires Ready(log, start, deadline) && LaunchedIn(log, start, known.job)
      requires errors == Trailing(Failures(log, start)) < 3 && NeverThrice(Failures(log, start))
      modifies this`turn, this`now, this`status, this`answers, this`log
      ensures Valid() && old(log) <= log && Course(log, start, deadline)
      ensures match reply
        case GiveUp => Abandoned(log, start, deadline)
        case GoOn => |log| > |old(log)| && Paused(log, start, deadline) && count == Trailing(Failures(log, start)) < 3
        case Verdict(file) =>
          && Decided(log, start, deadline) && |answers| > 0
          && var a := answers[|answers| - 1];
             a.turn + 2 == |log| && a.job == known.job && file == StatusFile(owner, known.job, a.status)
      ensures reply != GiveUp ==> NeverThrice(Failures(log, start))
      ensures Final(deadline) <==> reply.Verdict?
    {
      hide NeverThrice, Trailing, Failures, Course, Given, Comes;
      LogIsTurn();
      count := errors;
      ghost var h := log;
      OneFailureMore(h, Querying(known.job), start);
      QueryComes(h, start, deadline, known.job);
      var fate := RunStatus(Min(30.0, deadline - now), known.job);
      if fate == Interrupted {
        return GiveUp, count;
      }
      FewTrailing(Failures(h, start), fate != Done);
      if fate != Done {
        count := errors + 1;
        assert log[..|log|] == log;
        return if count >= 3 then GiveUp else GoOn, count;
      }
      reply := Read(deadline, known, start);
      count := 0;
    }

    /** The answer is read back and, if there is time for it, believed. */
    method Read(deadline: real, known: JobFile, ghost start: nat) returns (reply: Reply)
      requires Valid() && Course(log, start, deadline) && start + 1 < |log|
      requires log[|log| - 1] == Querying(known.job) && !Broken(|log| - 1) && TurnAt(|log| - 1).fate == Done
      requires known.owner == owner && status == Some(StatusFile(owner, known.job, TurnAt(|log| - 1).status))
      modifies this`turn, this`now, this`log
      ensures Valid() && |log| == |old(log)| + 1 && old(log) <= log && Course(log, start, deadline)
      ensures Failures(log, start) == old(Failures(log, start))
      ensures match reply
        case GiveUp => Abandoned(log, start, deadline) && (SignalAt(|old(log)|) || Over(|old(log)|, deadline))
        case GoOn => Paused(log, start, deadline) && status.value.status in {Init, Pending, SettingUp, Running}
        case Verdict(file) =>
          && Decided(log, start, deadline) && file == status.value
          && file.status in {Succeeded, Failed, FailedSetup, FailedDriver, Cancelled, Missing}
    {
      hide Trailing, Failures, Course, Valid;
      LogIsTurn();
      OneFailureMore(log, Reading, start);
      CourseOne(log, start, deadline, Reading);
      var raised, t := Step(Reading);
      var observed := status.value;
      LogIsTurn();
      if raised || observed.owner != owner || observed.job != known.job || now >= deadline {
        return GiveUp;
      }
      TenStatuses(observed.status);
      reply := if Nonterminal(observed.status) then GoOn else Verdict(observed);
    }

    lemma QueryComes(log: seq<Doing>, start: nat, deadline: real, job: nat)
      requires Ready(log, start, deadline) && LaunchedIn(log, start, job)
      ensures if Over(|log| - 1, deadline) then Abandoned(log, start, deadline)
              else Course(log + [Querying(job)], start, deadline)
    {
      if !Over(|log| - 1, deadline) {
        CourseOne(log, start, deadline, Querying(job));
      }
    }

    /** The wait between two queries; it is over with the time. */
    method Pause(deadline: real, ghost start: nat) returns (over: bool)
      requires Valid() && Paused(log, start, deadline)
      modifies this`turn, this`now, this`log
      ensures Valid() && old(log) <= log && Course(log, start, deadline)
      ensures Failures(log, start) == old(Failures(log, start))
      ensures if over then Abandoned(log, start, deadline) else Ready(log, start, deadline) && |log| <= |schedule|
    {
      hide Failures, Valid, Trailing, Course;
      LogIsTurn();
      OneFailureMore(log, Waiting, start);
      WaitComes(log, start, deadline);
      if deadline - now <= 0.0 {
        return true;
      }
      var t;
      over, t := Step(Waiting);
    }

    lemma WaitComes(log: seq<Doing>, start: nat, deadline: real)
      requires Paused(log, start, deadline)
      ensures if Over(|log| - 1, deadline) then Abandoned(log, start, deadline)
              else Course(log + [Waiting], start, deadline)
    {
      assert log[..|log|] == log;
      if !Over(|log| - 1, deadline) {
        CourseOne(log, start, deadline, Waiting);
      }
    }

    /** Queries until an answer is final, or until there is nothing left to try. */
    method Query(deadline: real, known: JobFile, ghost start: nat) returns (reply: Reply)
      requires Valid() && known.owner == owner && job == Some(known) && !Final(deadline)
      requires Ready(log, start, deadline) && LaunchedIn(log, start, known.job) && Failures(log, start) == []
      modifies this`turn, this`now, this`status, this`answers, this`log
      ensures Valid() && old(log) <= log && Course(log, start, deadline)
      ensures match reply
        case GiveUp => Abandoned(log, start, deadline)
        case GoOn => false
        case Verdict(file) =>
          && Decided(log, start, deadline) && |answers| > 0
          && var a := answers[|answers| - 1];
             a.turn + 2 == |log| && a.job == known.job && file == StatusFile(owner, known.job, a.status)
      ensures reply.Verdict? ==> NeverThrice(Failures(log, start))
      ensures Final(deadline) <==> reply.Verdict?
    {
      NoneTrailing();
      hide NeverThrice, Trailing, Final, Failures, Valid, Ready, Paused, Course, Abandoned, Decided;
      var errors := 0;
      while true
        invariant Valid() && old(log) <= log && !Final(deadline)
        invariant Ready(log, start, deadline) && LaunchedIn(log, start, known.job)
        invariant errors == Trailing(Failures(log, start)) < 3 && NeverThrice(Failures(log, start))
        decreases |schedule| - |log|
      {
        ghost var h := log;
        reply, errors := Ask(deadline, known, errors, start);
        StillLaunched(h, log, start, known.job);
        if reply != GoOn {
          return;
        }
        h := log;
        var over := Pause(deadline, start);
        StillLaunched(h, log, start, known.job);
        if over {
          return GiveUp;
        }
      }
    }

    lemma StillLaunched(before: seq<Doing>, log: seq<Doing>, start: nat, job: nat)
      requires before <= log && LaunchedIn(before, start, job)
      ensures LaunchedIn(log, start, job)
    {
    }

    /** The last answer is final, and was read in time and without an interrupt. */
    ghost predicate Final(deadline: real)
      reads this`answers
    {
      && |answers| > 0
      && var a := answers[|answers| - 1];
         && a.status in {Succeeded, Failed, FailedSetup, FailedDriver, Cancelled, Missing}
         && !SignalAt(a.turn + 1) && ClockAt(a.turn + 2) < deadline
    }

    lemma NoneFinal(deadline: real)
      ensures answers == [] ==> !Final(deadline)
    {
    }

    /** Launch, query until the status is final, and record the verdict.  Returns it, or raises: for an
        interrupt while the verdict is recorded, whether or not it is on file by then, or because polling
        came to its end without one. */
    method Poll(timeout: real) returns (outcome: Outcome, terminal: bool, known: Option<JobFile>)
      requires Valid() && launched.None? && answers == []
      modifies this`turn, this`now, this`attempted, this`request, this`job, this`launched, this`status,
               this`answers, this`result, this`log
      ensures Valid() && old(log) <= log
      ensures Course(log, |old(log)|, old(now) + timeout) && Halted(log, |old(log)|, old(now) + timeout)
      ensures |log| == |old(log)| <==> timeout <= 0.0 || admission <= old(now)
      ensures known.Some? <==> |log| > |old(log)| && Launches(|old(log)|)
      ensures known.Some? ==> known == job && known.value.owner == owner
      ensures launched.Some? ==>
        LaunchedIn(log, |old(log)|, launched.value) && job == Some(JobFile(owner, launched.value))
      ensures launched.None? ==> job == old(job)
      ensures |log| > |old(log)| && !SignalAt(|old(log)|) && TurnAt(|old(log)|).launch.Launched? ==> launched.Some?
      ensures request == Asked(old(request), |old(log)|, |log| > |old(log)|)
      ensures attempted <==> old(attempted) || (|log| > |old(log)| && Sends(|old(log)|))
      ensures Final(old(now) + timeout) <==> |log| > |old(log)| && log[|log| - 1] == Recording
      ensures outcome.Exit? <==> Final(old(now) + timeout) && !SignalAt(|log| - 1)
      ensures Final(old(now) + timeout) ==>
        NeverThrice(Failures(log, |old(log)|)) && launched.Some? && known.Some? && |answers| > 0
      ensures terminal <==> Final(old(now) + timeout) && answers[|answers| - 1].status != Missing
      ensures Final(old(now) + timeout) ==>
        var a := answers[|answers| - 1];
        && a.turn + 3 == |log| && a.job == launched.value && (outcome.Exit? ==> Means(outcome.code, a.status))
        && (Written(|log| - 1) ==> result == Some(Observed(StatusFile(owner, a.job, a.status))))
      ensures !Final(old(now) + timeout) || !Written(|log| - 1) ==> result == old(result)
    {
      hide Failures, NeverThrice, Asked, Sends, Launches, Valid, Course, Halted, Ready, Decided;
      NoneFinal(now + timeout);
      var deadline := now + timeout;
      ghost var start := |log|;
      terminal, outcome := false, Raised;
      var begun;
      begun, known := Open(deadline);
      if !begun {
        return;
      }
      var reply := Query(deadline, known.value, start);
      if !reply.Verdict? {
        return;
      }
      OneFailureMore(log, Recording, start);
      RecordComes(log, start, deadline);
      LogIsTurn();
      terminal := reply.file.status != Missing;
      var raised, t := Step(Recording);
      if !raised || t.fate == Done {
        result := Some(Observed(reply.file));
      }
      if !raised {
        outcome := Exit(ExitCode(reply.file.status));
      }
    }

    lemma RecordComes(log: seq<Doing>, start: nat, deadline: real)
      requires Decided(log, start, deadline)
      ensures Course(log + [Recording], start, deadline) && Halted(log + [Recording], start, deadline)
    {
      CourseOne(log, start, deadline, Recording);
    }

    // ------------------------------------------------------------------------ the way out

    /** What must be attempted on the way out. */
    function WayOut(terminal: bool, known: Option<JobFile>): (plan: seq<Operation>)
      reads this`request
      ensures |plan| > 0 && (if terminal then plan == [Logs] else plan[|plan| - 1] == StopApi)
      ensures StopApi in plan <==> !terminal
    {
      if terminal then [Logs]
      else if known.Some? then [CancelJob(known.value.job), StopApi]
      else if request.Some? then [CancelRequest(request.value.request), StopApi]
      else [StopApi]
    }

    /** An interrupt is delivered in moment k of a way out that begins in turn i: a moment comes before
        each item and takes a turn, as the item does. */
    predicate Cut(i: nat, k: nat) {
      SignalAt(i + 2 * k)
    }

    /** How many of n moments come before the first such interrupt. */
    function Uncut(i: nat, n: nat): (m: nat)
      ensures m <= n
      decreases n
    {
      if n == 0 || SignalAt(i) then 0 else 1 + Uncut(i + 2, n - 1)
    }

    /** The way out is cut short exactly if an interrupt comes in one of its moments. */
    lemma {:induction false} UncutIff(i: nat, n: nat)
      ensures Uncut(i, n) < n <==> exists k: nat :: k < n && Cut(i, k)
      ensures Uncut(i, n) < n ==> Cut(i, Uncut(i, n))
      ensures forall k: nat | k < Uncut(i, n) :: !Cut(i, k)
      decreases n
    {
      if n > 0 {
        UncutIff(i + 2, n - 1);
        assert Cut(i, 0) == SignalAt(i);
        forall k: nat | 0 < k && Cut(i, k) ensures Cut(i + 2, k - 1) {
        }
        var rest := Uncut(i + 2, n - 1);
        assert Cut(i + 2, rest) == Cut(i, rest + 1);
      }
    }

    lemma UncutIs(i: nat, m: nat, n: nat)
      requires m <= n && Calm(i, m) && (m < n ==> Cut(i, m))
      ensures Uncut(i, n) == m
    {
      UncutIff(i, n);
      hide Cut;
    }

    /** An operation in this turn succeeds: there is time for it, no interrupt comes before its worker is
        started, and the worker does what it should. */
    predicate Works(i: nat) {
      ClockAt(i) < cleanup && !SignalAt(i) && TurnAt(i).fate == Done
    }

    /** How the operations of a way out that begins in turn i end. */
    function Endings(plan: seq<Operation>, i: nat): (endings: seq<Ending>)
      ensures |endings| == |plan|
    {
      seq(|plan|, k requires 0 <= k < |plan| => Ending(plan[k], Works(i + 2 * k + 1)))
    }

    lemma EndingsOne(plan: seq<Operation>, i: nat, k: nat)
      requires k < |plan|
      ensures Endings(plan[..k + 1], i) == Endings(plan[..k], i) + [Ending(plan[k], Works(i + 2 * k + 1))]
      ensures plan[..k + 1] == plan[..k] + [plan[k]]
    {
    }

    /** Whether a receipt is on file after the turn in which it is written: an interrupt is swallowed
        with whatever is left to do. */
    predicate Written(i: nat) {
      !SignalAt(i) || TurnAt(i).fate == Done
    }

    /** What is done when m moments come before the first interrupt: the operations in order up to it,
        then the receipt of how they ended. */
    ghost predicate Left(plan: seq<Operation>, m: nat, operations: seq<Operation>, torn: bool, way: seq<Doing>) {
      var n := |plan|;
      && operations == plan[..Least(m, n)] && (torn <==> m < n + 2)
      && way == Path(Items(plan)[..Least(m, n + 1)]) + [Between]
    }

    /** So many operations have been attempted and no moment was interrupted. */
    ghost predicate Underway(before: seq<Doing>, log: seq<Doing>, plan: seq<Operation>, k: nat,
                             operations: seq<Operation>) {
      && k <= |plan| && operations == plan[..k] && log == before + Path(Items(plan)[..k])
      && Calm(|before|, k)
    }

    /** No interrupt comes in the first so many moments. */
    ghost predicate Calm(i: nat, k: nat) {
      forall j: nat | j < k :: !Cut(i, j)
    }

    lemma UnderwayIs(before: seq<Doing>, log: seq<Doing>, plan: seq<Operation>, k: nat, operations: seq<Operation>)
      requires Underway(before, log, plan, k, operations)
      ensures |log| == |before| + 2 * k && before <= log && Calm(|before|, k)
      ensures Cut(|before|, k) == SignalAt(|log|)
    {
    }

    lemma UnderwayOne(before: seq<Doing>, log: seq<Doing>, plan: seq<Operation>, k: nat, operations: seq<Operation>)
      requires Underway(before, log, plan, k, operations) && k < |plan| && !SignalAt(|log|)
      ensures Underway(before, log + [Between] + [Attempting(plan[k])], plan, k + 1, operations + [plan[k]])
    {
      UnderwayIs(before, log, plan, k, operations);
      hide Cut;
      PathOne(Items(plan), k);
      hide Path;
      assert log + [Between] + [Attempting(plan[k])] ==
        before + (Path(Items(plan)[..k]) + [Between, Attempting(plan[k])]);
    }

    lemma CutShort(before: seq<Doing>, log: seq<Doing>, plan: seq<Operation>, k: nat, operations: seq<Operation>)
      requires Underway(before, log, plan, k, operations) && SignalAt(|log|)
      ensures Left(plan, k, operations, true, (log + [Between])[|before|..]) && Uncut(|before|, |plan| + 2) == k
    {
      UnderwayIs(before, log, plan, k, operations);
      UncutIs(|before|, k, |plan| + 2);
      hide Path, Items, Cut, SignalAt;
      assert (before + Path(Items(plan)[..k]) + [Between])[|before|..] == Path(Items(plan)[..k]) + [Between];
    }

    lemma PathAll(plan: seq<Operation>)
      ensures Path(Items(plan)[..|plan| + 1]) == Path(Items(plan)[..|plan|]) + [Between, Diagnosing]
    {
      PathOne(Items(plan), |plan|);
    }

    lemma UncutAtEnd(i: nat, n: nat, at: nat)
      requires at == i + 2 * n && Calm(i, n) && !SignalAt(at)
      ensures Uncut(i, n + 2) == if SignalAt(at + 2) then n + 1 else n + 2
    {
      assert Cut(i, n + 1) == SignalAt(at + 2) && !Cut(i, n);
      hide Cut;
      UncutIs(i, if Cut(i, n + 1) then n + 1 else n + 2, n + 2);
    }

    lemma AllDone(before: seq<Doing>, log: seq<Doing>, plan: seq<Operation>, operations: seq<Operation>, torn: bool)
      requires Underway(before, log, plan, |plan|, operations)
      ensures var way := (log + [Between] + [Diagnosing] + [Between])[|before|..];
        Left(plan, if torn then |plan| + 1 else |plan| + 2, operations, torn, way)
    {
      PathAll(plan);
      RestOfAll(before, Path(Items(plan)[..|plan|]));
      LeftWhole(plan, torn);
      hide Left, Cut;
    }

    lemma LeftWhole(plan: seq<Operation>, torn: bool)
      ensures Left(plan, if torn then |plan| + 1 else |plan| + 2, plan[..|plan|], torn,
                   Path(Items(plan)[..|plan| + 1]) + [Between])
    {
    }

    lemma RestOfAll(before: seq<Doing>, path: seq<Doing>)
      ensures var all := before + path + [Between] + [Diagnosing] + [Between];
        before <= all && all[|before|..] == path + [Between, Diagnosing] + [Between]
    {
    }

    lemma NotUnderwayYet(before: seq<Doing>, plan: seq<Operation>)
      ensures Underway(before, before, plan, 0, []) && Endings(plan[..0], |before|) == []
    {
      assert before + [] == before;
    }

    /** Attempt one operation; whatever goes wrong with it is only noted. */
    method Attempt(operation: Operation) returns (success: bool)
      requires Valid()
      modifies this`turn, this`now, this`operations, this`log
      ensures Valid() && log == old(log) + [Attempting(operation)] && operations == old(operations) + [operation]
      ensures success == Works(|old(log)|)
    {
      LogIsTurn();
      operations := operations + [operation];
      var late := now >= cleanup;
      var inside, t := Step(Attempting(operation));
      success := !late && !inside && t.fate == Done;
    }

    /** Attempt every operation in turn; a failing one does not keep the next from being attempted.
        Only an interrupt between two workers does: `torn` says that one came. */
    method Leave(terminal: bool, known: Option<JobFile>) returns (torn: bool)
      requires Valid() && operations == []
      modifies this`turn, this`now, this`operations, this`diagnostics, this`log
      ensures Valid() && old(log) <= log
      ensures var plan := WayOut(terminal, known);
        var m := Uncut(|old(log)|, |plan| + 2);
        && Left(plan, m, operations, torn, log[|old(log)|..])
        && diagnostics == if m > |plan| && Written(|old(log)| + 2 * |plan| + 1) then Some(Endings(plan, |old(log)|))
                          else old(diagnostics)
    {
      hide Valid, Underway, Left, WayOut, Endings, Works, Calm, Cut, SignalAt;
      LogIsTurn();
      var plan := WayOut(terminal, known);
      var outcomes: seq<Ending> := [];
      NotUnderwayYet(log, plan);
      var t;
      for k := 0 to |plan|
        invariant Valid() && plan == WayOut(terminal, known) && diagnostics == old(diagnostics) && old(log) <= log
        invariant Underway(old(log), log, plan, k, operations) && outcomes == Endings(plan[..k], |old(log)|)
      {
        ghost var h := log;
        LogIsTurn();
        UnderwayIs(old(log), h, plan, k, operations);
        EndingsOne(plan, |old(log)|, k);
        torn, t := Step(Between);
        if torn {
          CutShort(old(log), h, plan, k, operations);
          return;
        }
        UnderwayOne(old(log), h, plan, k, operations);
        var success := Attempt(plan[k]);
        outcomes := outcomes + [Ending(plan[k], success)];
      }
      assert plan[..|plan|] == plan;
      torn := Diagnose(outcomes, old(log), plan);
    }

    /** The receipt of how the operations ended. */
    method Diagnose(outcomes: seq<Ending>, ghost before: seq<Doing>, ghost plan: seq<Operation>) returns (torn: bool)
      requires Valid() && Underway(before, log, plan, |plan|, operations)
      modifies this`turn, this`now, this`diagnostics, this`log
      ensures Valid() && before <= log
      ensures var m := Uncut(|before|, |plan| + 2);
        && Left(plan, m, operations, torn, log[|before|..])
        && diagnostics == if m > |plan| && Written(|before| + 2 * |plan| + 1) then Some(outcomes) else old(diagnostics)
    {
      hide Valid, Underway, Left, Calm, Cut, SignalAt;
      LogIsTurn();
      ghost var h := log;
      UnderwayIs(before, h, plan, |plan|, operations);
      var t, inside;
      torn, t := Step(Between);
      if torn {
        CutShort(before, h, plan, |plan|, operations);
        return;
      }
      UncutAtEnd(|before|, |plan|, |h|);
      AllDone(before, h, plan, operations, SignalAt(|h| + 2));
      inside, t := Step(Diagnosing);
      if !inside || t.fate == Done {
        diagnostics := Some(outcomes);
      }
      torn, t := Step(Between);
    }

    /** The receipt of a failure, which is swallowed with an interrupt that comes meanwhile, and if the
        job is not known a last look at its receipt, likewise. */
    method Recover(outcome: Outcome, known: Option<JobFile>) returns (recovered: Option<JobFile>)
      requires Valid() && (known.Some? ==> known == job) && (outcome.Exit? ==> known.Some?)
      modifies this`turn, this`now, this`result, this`log
      ensures Valid() && log == old(log) + Meanwhile(outcome.Exit?, known.Some?)
      ensures recovered == if known.Some? || Recovers(|log| - 1) then job else None
      ensures result == if known.None? && Written(|old(log)|) then Some(Excuse()) else old(result)
    {
      LogIsTurn();
      recovered := known;
      if outcome == Raised {
        var raised, t := Step(Reporting);
        if known.None? && (!raised || t.fate == Done) {
          result := Some(if attempted then Unconfirmed(owner) else NotRun(owner));
        }
      }
      if known.None? {
        LogIsTurn();
        var raised, t := Step(Recovering);
        if !raised && Mine(job) {
          recovered := job;
        }
      }
    }

    /** What is done between polling and the way out. */
    function Meanwhile(exit: bool, known: bool): seq<Doing> {
      (if exit then [] else [Reporting]) + if known then [] else [Recovering]
    }

    /** The last look, in this turn, finds the job. */
    predicate Recovers(i: int)
      reads this`job
    {
      i >= 0 && !SignalAt(i) && job.Some? && job.value.owner == owner
    }

    function Excuse(): ResultFile
      reads this`attempted
    {
      if attempted then Unconfirmed(owner) else NotRun(owner)
    }

    /** The job that the way out knows of. */
    function Known(knew: bool, left: nat): Option<JobFile>
      reads this`job
    {
      if knew || Recovers(left - 1) then job else None
    }

    lemma Sections(before: seq<Doing>, polled: seq<Doing>, left: seq<Doing>, log: seq<Doing>)
      requires before <= polled <= left <= log
      ensures log[..|polled|] == polled && log[..|left|] == left
      ensures log[|polled|..|left|] == left[|polled|..]
    {
    }

    /** What is attempted when so many moments come before the first interrupt: the logs of a job with a terminal
        status; else the job is cancelled if it is known, the request if only that is, and then the server is
        stopped. */
    ghost predicate Attempts(operations: seq<Operation>, terminal: bool, known: Option<JobFile>,
                             request: Option<RequestFile>, m: nat)
    {
      && (Logs in operations <==> terminal && m >= 1)
      && (forall j :: CancelJob(j) in operations <==> !terminal && known.Some? && known.value.job == j && m >= 1)
      && (forall r :: CancelRequest(r) in operations <==>
           !terminal && known.None? && request.Some? && request.value.request == r && m >= 1)
      && (StopApi in operations <==> !terminal && m >= if known.Some? || request.Some? then 2 else 1)
      && (StopApi in operations ==> operations[|operations| - 1] == StopApi)
    }

    lemma AttemptsAre(terminal: bool, known: Option<JobFile>, m: nat, torn: bool, way: seq<Doing>)
      requires Left(WayOut(terminal, known), m, operations, torn, way)
      ensures Attempts(operations, terminal, known, request, m)
    {
      hide Path, Items;
      var plan := WayOut(terminal, known);
      assert operations == plan[..Least(m, |plan|)];
      assert m >= 2 ==> operations == plan;
      assert m == 1 ==> operations == [plan[0]];
      assert m == 0 ==> operations == [];
    }

    /** The whole supervisor.  Polling takes the turns up to `decided`, and the way out begins in turn
        `left`.

        It returns the exit code of the last answer exactly if that is final and in time and no interrupt
        comes while the verdict is recorded or in a moment of the way out.  The server is stopped, or at
        least that is attempted, exactly if the status was not terminal and no interrupt cuts the way out
        short before. */
    method Supervise(timeout: real) returns (outcome: Outcome, ghost run: Account)
      requires Valid() && launched.None? && answers == [] && operations == []
      modifies this
      ensures Valid()
      ensures |old(log)| <= run.decided <= run.left <= |log| && old(log) <= log
      ensures var polled, start, deadline := log[..run.decided], |old(log)|, old(now) + timeout;
        && Course(polled, start, deadline) && Halted(polled, start, deadline)
        && (run.decided == start <==> timeout <= 0.0 || admission <= old(now))
        && (Final(deadline) <==> run.decided > start && log[run.decided - 1] == Recording)
      ensures run.knew <==> run.decided > |old(log)| && Launches(|old(log)|)
      ensures run.terminal <==> Final(old(now) + timeout) && answers[|answers| - 1].status != Missing
      ensures var recorded := Final(old(now) + timeout) && !SignalAt(run.decided - 1);
        && log[run.decided..run.left] == Meanwhile(recorded, run.knew)
        && (outcome.Exit? <==> recorded && !run.torn)
      ensures var plan := WayOut(run.terminal, Known(run.knew, run.left));
        var m := Uncut(run.left, |plan| + 2);
        && Left(plan, m, operations, run.torn, log[run.left..])
        && Attempts(operations, run.terminal, Known(run.knew, run.left), request, m)
        && diagnostics == if m > |plan| && Written(run.left + 2 * |plan| + 1) then Some(Endings(plan, run.left))
                          else old(diagnostics)
      ensures launched.Some? ==>
        LaunchedIn(log, |old(log)|, launched.value) && job == Some(JobFile(owner, launched.value))
      ensures launched.None? ==> job == old(job)
      ensures request == Asked(old(request), |old(log)|, run.decided > |old(log)|)
      ensures run.decided > |old(log)| && !SignalAt(|old(log)|) && TurnAt(|old(log)|).launch.Launched? ==>
        launched.Some?
      ensures Final(old(now) + timeout) ==>
        && launched.Some? && |answers| > 0 && NeverThrice(Failures(log[..run.decided], |old(log)|))
        && var a := answers[|answers| - 1];
           && a.turn + 3 == run.decided && a.job == launched.value
           && (outcome.Exit? ==>
                 && (outcome.code == 0 <==> a.status == Succeeded) && (outcome.code == 103 <==> a.status == Cancelled)
                 && (outcome.code == 102 <==> a.status == Missing)
                 && (outcome.code == 100 <==> a.status in {Failed, FailedSetup, FailedDriver}))
           && (Written(run.decided - 1) ==> result == Some(Observed(StatusFile(owner, a.job, a.status))))
      ensures !run.knew && Written(run.decided) ==> result == Some(Excuse())
      ensures !(Final(old(now) + timeout) && Written(run.decided - 1)) && !(!run.knew && Written(run.decided)) ==>
        result == old(result)
    {
      hide Path, NeverThrice, Uncut, WayOut, Failures, Valid, Course, Halted, Left, Endings, Launches, Asked, Attempts,
           Sends, Final, Written, Items, Least, LaunchedIn;
      var final, known;
      outcome, final, known := Poll(timeout);
      ghost var polled := log;
      var recovered := Recover(outcome, known);
      ghost var left := log;
      LogIsTurn();
      var torn := Leave(final, recovered);
      run := Account(|polled|, |left|, final, known.Some?, torn);
      Sections(old(log), polled, left, log);
      ghost var plan := WayOut(final, recovered);
      AttemptsAre(final, recovered, Uncut(|left|, |plan| + 2), torn, log[|left|..]);
      if launched.Some? {
        StillLaunched(polled, log, |old(log)|, launched.value);
      }
      if torn {
        outcome := Raised;
      }
    }
  }

  const CALM: Turn := Turn(false, 0.0, Done, NothingSent, Succeeded)

  const INTERRUPT: Turn := Turn(true, 0.0, Interrupted, NothingSent, Missing)

  lemma NoTimePasses(s: Supervisor, i: nat)
    requires forall j: nat :: s.TurnAt(j).elapsed == 0.0
    ensures s.ClockAt(i) == s.origin
  {
    if i > 0 {
      NoTimePasses(s, i - 1);
      assert s.TurnAt(i - 1).elapsed == 0.0;
    }
  }

  /** A launch that does not get everything done is the end of polling. */
  lemma LaunchFails(s: Supervisor, polled: seq<Doing>, deadline: real)
    requires s.Course(polled, 0, deadline) && s.Halted(polled, 0, deadline) && polled != [] && !s.Launches(0)
    ensures |polled| == 1 && polled[0] == Launching
  {
    GoesOn(s, polled, deadline, 0);
  }

  /** Without interrupts in these turns nothing is cut short. */
  lemma NothingCuts(s: Supervisor, i: nat, n: nat)
    requires forall k :: i <= k < i + 2 * n ==> !s.SignalAt(k)
    ensures s.Uncut(i, n) == n
  {
    forall j: nat | j < n ensures !s.Cut(i, j) {
    }
    s.UncutIs(i, n, n);
  }

  /** With a launch, a survey and an answer that nothing disturbs, the fifth turn records the verdict. */
  lemma VerdictIsRecorded(s: Supervisor, polled: seq<Doing>, deadline: real)
    requires s.Course(polled, 0, deadline) && s.Halted(polled, 0, deadline) && polled != []
    requires s.Launches(0) && !s.Broken(1) && !s.Broken(2) && !s.SignalAt(3)
    requires s.TurnAt(2).fate == Done && s.TurnAt(2).status !in {Init, Pending, SettingUp, Running}
    requires forall i :: 0 <= i < 4 ==> !s.Over(i, deadline)
    ensures |polled| == 5 && polled[4] == Recording && polled[2].Querying?
  {
    hide Supervisor.Launches, Supervisor.Broken, Supervisor.SignalAt, Supervisor.Over, Supervisor.Course, Trailing;
    GoesOn(s, polled, deadline, 0);
    GoesOn(s, polled, deadline, 1);
    GoesOn(s, polled, deadline, 2);
    GoesOn(s, polled, deadline, 3);
    GoesOn(s, polled, deadline, 4);
  }

  lemma GoesOn(s: Supervisor, polled: seq<Doing>, deadline: real, i: nat)
    requires s.Course(polled, 0, deadline) && s.Halted(polled, 0, deadline) && i < |polled|
    ensures i == 0 ==> polled[0] == Launching
    ensures if s.Stops(polled, 0, i, deadline) then |polled| == i + 1
            else |polled| > i + 1 && s.Comes(polled, 0, i + 1)
  {
    if |polled| > i + 1 {
      assert s.Comes(polled, 0, i + 1) && !s.Stops(polled, 0, i, deadline);
    }
  }

  /** What was done of a plan when no interrupt came in time. */
  lemma AllDoneOf(s: Supervisor, plan: seq<Operation>, m: nat, operations: seq<Operation>, torn: bool, way: seq<Doing>)
    requires s.Left(plan, m, operations, torn, way) && m >= |plan|
    ensures operations == plan
  {
    hide Path, Items;
  }

  /** Interrupted from the beginning: nothing is attempted. */
  method TornRun() returns (s: Supervisor, outcome: Outcome)
    ensures outcome == Raised && s.operations == []
  {
    s := new Supervisor("", 1.0, 2.0, [], 0.0);
    ghost var run;
    outcome, run := s.Supervise(1.0);
    LaunchFails(s, s.log[..run.decided], 1.0);
    ghost var plan := s.WayOut(run.terminal, s.Known(run.knew, run.left));
    assert run.left == 3 && s.Cut(3, 0);
    s.UncutIs(3, 0, |plan| + 2);
  }

  /** What happens in these turns: one interrupt, in the fifth. */
  lemma OneInterrupt(s: Supervisor, launch: Turn, deadline: real)
    requires deadline == s.origin + 1.0
    requires s.schedule == [launch, CALM, CALM, CALM, INTERRUPT, CALM, CALM, CALM, CALM, CALM, CALM, CALM]
    requires launch == CALM.(launch := Launched(1, 2))
    ensures s.Launches(0) && !s.Broken(1) && !s.Broken(2) && !s.SignalAt(3) && s.SignalAt(4) && !s.Written(4)
    ensures s.TurnAt(2).fate == Done && s.TurnAt(2).status == Succeeded
    ensures forall k :: 6 <= k < 12 ==> !s.SignalAt(k)
    ensures forall i | 0 <= i < 4 :: !s.Over(i, deadline)
  {
    forall i | 0 <= i < 4 ensures !s.Over(i, deadline) {
      NoTimePasses(s, i + 1);
    }
  }

  /** An interrupt while the verdict is recorded: the run raises, and the server is not stopped. */
  method LogsOnly() returns (s: Supervisor, outcome: Outcome)
    ensures outcome == Raised && s.operations == [Logs] && s.result.None?
    ensures |s.answers| > 0 && s.answers[|s.answers| - 1].status == Succeeded
  {
    hide Supervisor.Left, Supervisor.Uncut, Supervisor.Endings, Supervisor.Course, Supervisor.Halted, Supervisor.WayOut,
         Supervisor.Final, Supervisor.Failures, Supervisor.LaunchedIn, Supervisor.Asked, Supervisor.Launches,
         Supervisor.Broken, Supervisor.SignalAt, Supervisor.TurnAt, Supervisor.Written, Supervisor.Over, NeverThrice;
    var launch := CALM.(launch := Launched(1, 2));
    var turns := [launch, CALM, CALM, CALM, INTERRUPT, CALM, CALM, CALM, CALM, CALM, CALM, CALM];
    s := new Supervisor("", 1.0, 2.0, turns, 0.0);
    OneInterrupt(s, launch, 1.0);
    ghost var run;
    outcome, run := s.Supervise(1.0);
    VerdictIsRecorded(s, s.log[..run.decided], 1.0);
    assert s.log[4] == Recording;
    assert s.answers[|s.answers| - 1] in s.answers;
    assert run.left == 6;
    NothingCuts(s, 6, 3);
    AllDoneOf(s, s.WayOut(run.terminal, s.Known(run.knew, run.left)), 3, s.operations, run.torn, s.log[6..]);
  }

  /** The launch worker runs out of time once its job is on file, and an interrupt keeps the job from being
      looked up: it is not cancelled. */
  method LostJob() returns (s: Supervisor, outcome: Outcome)
    ensures outcome == Raised && s.job == Some(JobFile("", 2)) && s.operations == [CancelRequest(1), StopApi]
  {
    hide Supervisor.Left, Supervisor.Uncut, Supervisor.Endings, Supervisor.Course, Supervisor.Halted,
         Supervisor.Final, Supervisor.Failures, Supervisor.ClockAt, NeverThrice;
    var launch := CALM.(launch := Launched(1, 2), fate := Expired);
    var turns := [launch, CALM, INTERRUPT, CALM, CALM, CALM, CALM, CALM, CALM, CALM, CALM];
    s := new Supervisor("", 1.0, 2.0, turns, 0.0);
    ghost var run;
    outcome, run := s.Supervise(1.0);
    LaunchFails(s, s.log[..run.decided], 1.0);
    assert s.log[0] == Launching;
    assert run.left == 3;
    NothingCuts(s, 3, 4);
    AllDoneOf(s, s.WayOut(run.terminal, s.Known(run.knew, run.left)), 4, s.operations, run.torn, s.log[3..]);
  }
}
