/** The private API server of one CI attempt, as the owner that starts it, the server that
    waits for release, the program that stops it, systemd and the clock interleave.
    Any of the programs may die at any step, and a dead owner may be started again. */
module ApiHandshake {
  import opened Wrappers

  /** The two deadlines of the attempt. */
  datatype Owner = Owner(admission: real, cleanup: real)

  /** The startup plan: how long the unit may run, and when that was worked out. */
  datatype Plan = Plan(port: nat, runtime: int, computed: real)

  /** What the server records about itself. */
  datatype Receipt = Receipt(plan: Plan, invocation: nat, boot: nat)

  datatype Unit =
    | NoUnit
    | Starting(launched: real)
    | Active(launched: real, activated: real, invocation: nat, contained: bool)

  datatype Starter =
    | Begin
    | Unattempted
    | Computed(runtime: int, at: real)
    | Cleared(runtime: int, at: real)
    | Planned
    | Launched
    | Polling(deadline: real)
    | Recorded(deadline: real)
    | Verified(deadline: real, receipt: Receipt)
    | Ready(receipt: Receipt, checked: real)
    | Released
    | Dead

  datatype Server =
    | Off
    | Entered
    | Registered(deadline: real, receipt: Receipt)
    | ReleaseSeen(receipt: Receipt)
    | Matched(receipt: Receipt)
    | Serving(receipt: Receipt, checked: real)

  datatype Stopper = Idle | Identified(receipt: Receipt) | Stopped(receipt: Receipt) | Emptied(receipt: Receipt)

  /** `members` counts the processes of the unit's cgroup.  `launches`, `verified` and
      `releaseChecked` record history for the statements below. */
  datatype State = State(
    now: real, boot: nat,
    plan: Option<Plan>, service: Option<Receipt>, release: Option<Receipt>, retired: Option<Receipt>,
    starter: Starter, server: Server, stopper: Stopper,
    unit: Unit, members: nat,
    launches: nat, verified: Option<Receipt>, releaseChecked: real)

  datatype Action =
    | Tick(elapsed: real)
    | StarterStep(answered: bool, port: nat)
    | StarterDies
    | StarterAgain
    | UnitStarts(invocation: nat)
    | UnitFails
    | ServerStep
    | ServerDies
    | Fork
    | HelperExits
    | Weaken
    | StopperStep(answered: bool, cleared: bool)
    | StopperDies
    | Reboot

  function Initial(now: real, boot: nat): State {
    State(now, boot, None, None, None, None, Begin, Off, Idle, NoUnit, 0, 0, None, 0.0)
  }

  function Min(a: real, b: real): real {
    if a <= b then a else b
  }

  /** Whole seconds of the cleanup window, less the launch, start and stop margins. */
  function Lifetime(o: Owner, now: real): int {
    (o.cleanup - now).Floor - 20
  }

  /** The unit has the recorded invocation and its containment, and holds a process. */
  predicate Running(s: State, receipt: Receipt) {
    && s.unit.Active? && s.unit.invocation == receipt.invocation && s.unit.contained && s.members > 0
  }

  /** The recorded server is of this plan and of this boot. */
  predicate Identity(s: State) {
    s.plan.Some? && s.service.Some? && s.service.value.plan == s.plan.value && s.service.value.boot == s.boot
  }

  function StarterNext(o: Owner, s: State, answered: bool, port: nat): State {
    match s.starter
    case Begin => s.(starter := if s.plan.Some? then Dead else Unattempted)
    case Unattempted => s.(starter := Computed(Lifetime(o, s.now), s.now))
    case Computed(runtime, at) =>
      s.(starter := if runtime <= 0 || s.now >= o.admission then Dead else Cleared(runtime, at))
    case Cleared(runtime, at) => s.(plan := Some(Plan(port, runtime, at)), starter := Planned)
    case Planned =>
      s.(unit := Starting(s.now), launches := s.launches + 1, starter := if answered then Launched else Dead)
    case Launched => s.(starter := Polling(Min(s.now + 60.0, o.admission)))
    case Polling(deadline) =>
      if s.service.Some? then s.(starter := Recorded(deadline))
      else if s.now >= deadline then s.(starter := Dead) else s
    case Recorded(deadline) =>
      if answered && Identity(s) && Running(s, s.service.value)
      then s.(starter := Verified(deadline, s.service.value), verified := s.service)
      else s.(starter := Dead)
    case Verified(deadline, receipt) =>
      s.(starter := if s.now >= deadline then Dead else Ready(receipt, s.now))
    case Ready(receipt, checked) => s.(release := Some(receipt), releaseChecked := checked, starter := Released)
    case Released => s
    case Dead => s
  }

  function ServerNext(o: Owner, s: State): State {
    match s.server
    case Off => s
    case Entered =>
      if s.plan.None? || !s.unit.Active? then Leave(s)
      else
        var receipt := Receipt(s.plan.value, s.unit.invocation, s.boot);
        s.(service := Some(receipt), server := Registered(Min(s.now + 15.0, o.admission), receipt))
    case Registered(deadline, receipt) =>
      if s.release.Some? then s.(server := ReleaseSeen(receipt))
      else if s.now >= deadline then Leave(s) else s
    case ReleaseSeen(receipt) =>
      if s.release == Some(receipt) then s.(server := Matched(receipt)) else Leave(s)
    case Matched(receipt) =>
      if s.now >= o.admission then Leave(s) else s.(server := Serving(receipt, s.now))
    case Serving(_, _) => s
  }

  /** The server process exits; helpers it forked stay in the cgroup. */
  function Leave(s: State): State {
    if s.server.Off? then s else s.(server := Off, members := if s.members > 0 then s.members - 1 else 0)
  }

  function StopperNext(s: State, answered: bool, cleared: bool): State {
    match s.stopper
    case Idle => if Identity(s) && s.retired.None? then s.(stopper := Identified(s.service.value)) else s
    case Identified(receipt) =>
      if !answered then s.(stopper := Idle)
      else if s.members == 0 || !s.unit.Active? then s.(stopper := Stopped(receipt))
      else if !Running(s, receipt) then s.(stopper := Idle)
      else if cleared then s.(members := 0, server := Off, stopper := Stopped(receipt))
      else s.(stopper := Stopped(receipt))
    case Stopped(receipt) => s.(stopper := if s.members == 0 then Emptied(receipt) else Idle)
    case Emptied(receipt) => s.(retired := Some(receipt), stopper := Idle)
  }

  /** systemd's bounds: a start that takes ten seconds fails, and at the end of its runtime
      the unit is stopped within five. */
  predicate MayTick(s: State, elapsed: real) {
    && elapsed >= 0.0
    && (s.unit.Starting? ==> s.now + elapsed <= s.unit.launched + 10.0)
    && (s.unit.Active? && s.members > 0 && s.plan.Some? ==>
          s.now + elapsed <= s.unit.activated + s.plan.value.runtime as real + 5.0)
  }

  function Next(o: Owner, s: State, a: Action): State {
    match a
    case Tick(elapsed) => if MayTick(s, elapsed) then s.(now := s.now + elapsed) else s
    case StarterStep(answered, port) => StarterNext(o, s, answered, port)
    case StarterDies => s.(starter := Dead)
    case StarterAgain => if s.starter.Dead? || s.starter.Released? then s.(starter := Begin) else s
    case UnitStarts(invocation) =>
      if s.unit.Starting?
      then s.(unit := Active(s.unit.launched, s.now, invocation, true), members := 1, server := Entered)
      else s
    case UnitFails => if s.unit.Starting? then s.(unit := NoUnit) else s
    case ServerStep => ServerNext(o, s)
    case ServerDies => Leave(s)
    case Fork => if s.members > 0 then s.(members := s.members + 1) else s
    case HelperExits =>
      if s.members > (if s.server.Off? then 0 else 1) then s.(members := s.members - 1) else s
    case Weaken => if s.unit.Active? then s.(unit := s.unit.(contained := false)) else s
    case StopperStep(answered, cleared) => StopperNext(s, answered, cleared)
    case StopperDies => s.(stopper := Idle)
    case Reboot =>
      s.(boot := s.boot + 1, unit := NoUnit, members := 0, starter := Dead, server := Off, stopper := Idle)
  }

  function Run(o: Owner, s: State, actions: seq<Action>): State
    decreases |actions|
  {
    if actions == [] then s else Run(o, Next(o, s, actions[0]), actions[1..])
  }

  // ---------------------------------------------------------------- invariants

  /** One attempt: the plan comes first, and a unit is launched at most once. */
  ghost predicate OneAttempt(s: State) {
    && s.launches <= 1
    && (s.plan.None? ==> s.launches == 0 && s.service.None? && s.release.None?)
    && (s.unit != NoUnit ==> s.launches == 1)
    && (s.launches == 0 ==> s.unit.NoUnit? && s.members == 0 && s.service.None?)
    && (s.starter.Unattempted? || s.starter.Computed? || s.starter.Cleared? ==> s.plan.None?)
    && (s.starter.Planned? ==> s.plan.Some? && s.launches == 0)
    && (s.starter.Launched? || s.starter.Polling? || s.starter.Recorded? || s.starter.Verified? || s.starter.Ready? ==>
          s.launches == 1)
  }

  ghost predicate Timed(o: Owner, s: State) {
    && (s.starter.Computed? || s.starter.Cleared? ==>
          s.starter.runtime == Lifetime(o, s.starter.at) && s.starter.at <= s.now)
    && (s.starter.Cleared? ==> s.starter.runtime > 0)
    && (s.plan.Some? ==>
          s.plan.value.runtime == Lifetime(o, s.plan.value.computed) && s.plan.value.runtime > 0
          && s.plan.value.computed <= s.now)
    && (s.unit != NoUnit ==> s.plan.Some? && s.plan.value.computed <= s.unit.launched <= s.now)
    && (s.unit.Starting? ==> s.now <= s.unit.launched + 10.0 && s.members == 0)
    && (s.unit.Active? ==> s.unit.activated <= s.unit.launched + 10.0 && s.unit.activated <= s.now)
    && (s.members > 0 ==> s.unit.Active? && s.now <= s.unit.activated + s.plan.value.runtime as real + 5.0)
  }

  /** The server's own receipt is the one on file, and it belongs to the process that waits. */
  ghost predicate Registration(s: State) {
    && (!s.server.Off? ==> s.members > 0 && s.unit.Active?)
    && (s.server.Entered? ==> s.service.None?)
    && (s.unit.Starting? ==> s.service.None?)
    && (s.service.Some? ==> s.plan.Some? && s.service.value.plan == s.plan.value && s.launches == 1)
    && (s.server.Registered? || s.server.ReleaseSeen? || s.server.Matched? || s.server.Serving? ==>
          && s.service == Some(s.server.receipt) && s.unit.invocation == s.server.receipt.invocation
          && s.server.receipt.boot == s.boot)
  }

  ghost predicate Admission(o: Owner, s: State) {
    && (s.starter.Polling? || s.starter.Recorded? || s.starter.Verified? ==> s.starter.deadline <= o.admission)
    && (s.starter.Verified? || s.starter.Ready? ==>
          s.verified == Some(s.starter.receipt) && s.service == s.verified)
    && (s.starter.Ready? ==> s.starter.checked < o.admission)
    && (s.server.Registered? ==> s.server.deadline <= o.admission)
    && (s.verified.Some? ==> s.service == s.verified)
    && (s.release.Some? ==> s.release == s.verified && s.releaseChecked < o.admission)
    && (s.server.Matched? || s.server.Serving? ==> s.release == Some(s.server.receipt))
    && (s.server.Serving? ==> s.server.checked < o.admission && s.server.checked <= s.now)
  }

  /** Nothing can enter an emptied cgroup again once the server has recorded itself. */
  ghost predicate Retirement(s: State) {
    && (!s.stopper.Idle? ==> s.service == Some(s.stopper.receipt))
    && (s.stopper.Emptied? ==> s.members == 0)
    && (s.retired.Some? ==> s.members == 0 && s.service == s.retired)
  }

  ghost predicate Invariant(o: Owner, s: State) {
    OneAttempt(s) && Timed(o, s) && Registration(s) && Admission(o, s) && Retirement(s)
  }

  lemma StarterKeepsOrder(o: Owner, s: State, answered: bool, port: nat)
    requires Invariant(o, s)
    ensures OneAttempt(StarterNext(o, s, answered, port)) && Registration(StarterNext(o, s, answered, port))
  {
  }

  lemma StarterKeepsTimes(o: Owner, s: State, answered: bool, port: nat)
    requires Invariant(o, s)
    ensures Timed(o, StarterNext(o, s, answered, port)) && Retirement(StarterNext(o, s, answered, port))
  {
    hide Lifetime, Admission, Running, Identity;
  }

  lemma StarterKeepsAdmission(o: Owner, s: State, answered: bool, port: nat)
    requires Invariant(o, s)
    ensures Admission(o, StarterNext(o, s, answered, port))
  {
    hide Lifetime, Timed;
  }

  lemma StarterKeepsInvariant(o: Owner, s: State, answered: bool, port: nat)
    requires Invariant(o, s)
    ensures Invariant(o, StarterNext(o, s, answered, port))
  {
    StarterKeepsOrder(o, s, answered, port);
    StarterKeepsTimes(o, s, answered, port);
    StarterKeepsAdmission(o, s, answered, port);
  }

  lemma ServerKeepsRegistration(o: Owner, s: State)
    requires Invariant(o, s)
    ensures Registration(ServerNext(o, s)) && Admission(o, ServerNext(o, s)) && Retirement(ServerNext(o, s))
  {
    hide Lifetime, Timed;
  }

  lemma ServerKeepsInvariant(o: Owner, s: State)
    requires Invariant(o, s)
    ensures Invariant(o, ServerNext(o, s)) && Invariant(o, Leave(s))
  {
    ServerKeepsRegistration(o, s);
    hide Lifetime;
  }

  lemma StopperKeepsOrder(o: Owner, s: State, answered: bool, cleared: bool)
    requires Invariant(o, s)
    ensures var t := StopperNext(s, answered, cleared); OneAttempt(t) && Registration(t) && Admission(o, t)
  {
    hide Lifetime, Timed;
  }

  lemma StopperKeepsTimes(o: Owner, s: State, answered: bool, cleared: bool)
    requires Invariant(o, s)
    ensures var t := StopperNext(s, answered, cleared); Timed(o, t) && Retirement(t)
  {
    hide Lifetime, Admission, Registration;
  }

  lemma StopperKeepsInvariant(o: Owner, s: State, answered: bool, cleared: bool)
    requires Invariant(o, s)
    ensures Invariant(o, StopperNext(s, answered, cleared))
  {
    StopperKeepsOrder(o, s, answered, cleared);
    StopperKeepsTimes(o, s, answered, cleared);
    hide StopperNext, OneAttempt, Timed, Registration, Admission, Retirement;
  }

  lemma NextKeepsInvariant(o: Owner, s: State, a: Action)
    requires Invariant(o, s)
    ensures Invariant(o, Next(o, s, a))
  {
    match a
    case StarterStep(answered, port) => StarterKeepsInvariant(o, s, answered, port);
    case ServerStep => ServerKeepsInvariant(o, s);
    case ServerDies => ServerKeepsInvariant(o, s);
    case StopperStep(answered, cleared) => StopperKeepsInvariant(o, s, answered, cleared);
    case _ =>
  }

  lemma {:induction false} RunKeepsInvariant(o: Owner, s: State, actions: seq<Action>)
    requires Invariant(o, s)
    ensures Invariant(o, Run(o, s, actions))
    decreases |actions|
  {
    if actions != [] {
      NextKeepsInvariant(o, s, actions[0]);
      RunKeepsInvariant(o, Next(o, s, actions[0]), actions[1..]);
    }
  }

  lemma {:induction false} RunOneMore(o: Owner, s: State, actions: seq<Action>, a: Action)
    ensures Run(o, s, actions + [a]) == Next(o, Run(o, s, actions), a)
    decreases |actions|
  {
    if actions == [] {
      assert [] + [a] == [a] && [a][1..] == [];
      assert Run(o, s, [a]) == Run(o, Next(o, s, a), []);
    } else {
      assert (actions + [a])[1..] == actions[1..] + [a];
      RunOneMore(o, Next(o, s, actions[0]), actions[1..], a);
    }
  }

  // ------------------------------------------------- what holds over every run

  /** However often the owner dies and is started again, a unit is launched at most once. */
  lemma AtMostOneLaunch(o: Owner, now: real, boot: nat, actions: seq<Action>)
    ensures Run(o, Initial(now, boot), actions).launches <= 1
  {
    RunKeepsInvariant(o, Initial(now, boot), actions);
  }

  /** In state `t` the owner finds admission still open and at least one second to live. */
  ghost predicate Admitted(o: Owner, t: State) {
    t.starter.Computed? && t.now < o.admission && t.starter.at <= t.now && t.starter.at + 21.0 <= o.cleanup
  }

  lemma AdmittedFirst(o: Owner, t: State, a: Action)
    requires Invariant(o, t) && t.plan.None? && !t.starter.Cleared?
    requires Next(o, t, a).plan.Some? || Next(o, t, a).starter.Cleared?
    ensures Admitted(o, t)
  {
  }

  /** A plan, and hence a launch, comes only after such a moment; and its runtime is then the whole
      seconds of what was left until the cleanup deadline, less twenty. */
  lemma {:induction false} LaunchWasAdmitted(o: Owner, now: real, boot: nat, actions: seq<Action>)
    ensures var s := Run(o, Initial(now, boot), actions);
      && (s.plan.Some? || s.launches > 0 || s.starter.Cleared? ==>
            exists k :: 0 <= k < |actions| && Admitted(o, Run(o, Initial(now, boot), actions[..k])))
      && (s.plan.Some? ==>
            var left := o.cleanup - s.plan.value.computed - 20.0;
            s.plan.value.runtime >= 1 && left - 1.0 < s.plan.value.runtime as real <= left)
    decreases |actions|
  {
    var start := Initial(now, boot);
    RunKeepsInvariant(o, start, actions);
    if actions != [] {
      var n := |actions| - 1;
      var before, last := actions[..n], actions[n];
      assert actions == before + [last];
      RunOneMore(o, start, before, last);
      RunKeepsInvariant(o, start, before);
      LaunchWasAdmitted(o, now, boot, before);
      var t, u := Run(o, start, before), Run(o, start, actions);
      if u.plan.Some? || u.starter.Cleared? {
        if t.plan.Some? || t.starter.Cleared? {
          var k :| 0 <= k < n && Admitted(o, Run(o, start, before[..k]));
          assert before[..k] == actions[..k];
        } else {
          AdmittedFirst(o, t, last);
          assert Admitted(o, Run(o, start, actions[..n]));
        }
      }
    }
  }

  /** Once admission is over and the owner has not passed its check, nothing is ever launched again;
      and whoever does not serve by then never will. */
  lemma {:induction false} NothingStartsLate(o: Owner, s: State, later: seq<Action>)
    requires s.now >= o.admission
    ensures var t := Run(o, s, later);
      && t.now >= o.admission
      && (!s.starter.Cleared? && !s.starter.Planned? ==>
            t.launches == s.launches && t.plan == s.plan && !t.starter.Cleared? && !t.starter.Planned?)
      && (!s.server.Serving? ==> !t.server.Serving?)
    decreases |later|
  {
    if later != [] {
      NothingStartsLate(o, Next(o, s, later[0]), later[1..]);
    }
  }

  /** A server that does not serve when admission is over leaves within four steps of its own. */
  lemma LateServerLeaves(o: Owner, now: real, boot: nat, actions: seq<Action>)
    requires var s := Run(o, Initial(now, boot), actions); s.now >= o.admission && !s.server.Serving?
    ensures var s := Run(o, Initial(now, boot), actions);
      Run(o, s, [ServerStep, ServerStep, ServerStep, ServerStep]).server.Off?
  {
    var s := Run(o, Initial(now, boot), actions);
    RunKeepsInvariant(o, Initial(now, boot), actions);
    hide Run;
    var steps, t := [], s;
    RunOfNone(o, s);
    steps, t := Extend(o, s, steps, t, ServerStep);
    steps, t := Extend(o, s, steps, t, ServerStep);
    steps, t := Extend(o, s, steps, t, ServerStep);
    steps, t := Extend(o, s, steps, t, ServerStep);
    assert steps == [ServerStep, ServerStep, ServerStep, ServerStep];
  }

  /** The owner looked at this receipt in state `t` and found its unit running, contained and its own. */
  ghost predicate Vouched(t: State, receipt: Receipt) {
    && t.starter.Recorded? && t.service == Some(receipt) && t.plan == Some(receipt.plan) && t.boot == receipt.boot
    && t.unit.Active? && t.unit.invocation == receipt.invocation && t.unit.contained && t.members > 0
  }

  lemma {:induction false} VerifiedWasVouched(o: Owner, s: State, actions: seq<Action>)
    requires s.verified.None?
    ensures Run(o, s, actions).verified.Some? ==>
      exists k :: 0 <= k < |actions| && Vouched(Run(o, s, actions[..k]), Run(o, s, actions).verified.value)
    decreases |actions|
  {
    if actions != [] {
      var n := |actions| - 1;
      var before, last := actions[..n], actions[n];
      assert actions == before + [last];
      RunOneMore(o, s, before, last);
      VerifiedWasVouched(o, s, before);
      var t, u := Run(o, s, before), Run(o, s, actions);
      if u.verified.Some? {
        if u.verified == t.verified {
          var k :| 0 <= k < n && Vouched(Run(o, s, before[..k]), t.verified.value);
          assert before[..k] == actions[..k];
        } else {
          VerifyingVouches(o, t, last);
          assert Vouched(Run(o, s, actions[..n]), u.verified.value);
        }
      }
    }
  }

  lemma VerifyingVouches(o: Owner, t: State, a: Action)
    requires Next(o, t, a).verified != t.verified
    ensures Next(o, t, a).verified.Some? && Vouched(t, Next(o, t, a).verified.value)
  {
  }

  /** The server is reached only with a release for its own receipt, written after the owner had
      seen exactly that invocation running and contained, both sides having checked admission. */
  lemma ServingWasReleased(o: Owner, now: real, boot: nat, actions: seq<Action>)
    ensures var s := Run(o, Initial(now, boot), actions);
      s.server.Serving? ==>
        && s.service == s.release == s.verified == Some(s.server.receipt)
        && s.unit.Active? && s.unit.invocation == s.server.receipt.invocation
        && s.plan == Some(s.server.receipt.plan)
        && s.releaseChecked < o.admission && s.server.checked < o.admission
        && exists k :: 0 <= k < |actions| && Vouched(Run(o, Initial(now, boot), actions[..k]), s.server.receipt)
  {
    RunKeepsInvariant(o, Initial(now, boot), actions);
    VerifiedWasVouched(o, Initial(now, boot), actions);
  }

  lemma NextKeepsRetired(o: Owner, s: State, a: Action)
    requires Invariant(o, s) && s.retired.Some?
    ensures Next(o, s, a).retired == s.retired
  {
  }

  lemma {:induction false} RetiredStays(o: Owner, s: State, actions: seq<Action>)
    requires Invariant(o, s) && s.retired.Some?
    ensures Run(o, s, actions).retired == s.retired
    decreases |actions|
  {
    if actions != [] {
      NextKeepsInvariant(o, s, actions[0]);
      NextKeepsRetired(o, s, actions[0]);
      RetiredStays(o, Next(o, s, actions[0]), actions[1..]);
    }
  }

  /** Once a retirement receipt is on file it names the recorded server, and in that and
      every later state the cgroup is empty and nothing serves. */
  lemma RetiredIsForever(o: Owner, now: real, boot: nat, actions: seq<Action>, later: seq<Action>)
    requires Run(o, Initial(now, boot), actions).retired.Some?
    ensures var s := Run(o, Initial(now, boot), actions);
      var t := Run(o, s, later);
      t.retired == s.retired && t.retired == t.service && t.members == 0 && t.server.Off?
  {
    var s := Run(o, Initial(now, boot), actions);
    RunKeepsInvariant(o, Initial(now, boot), actions);
    RunKeepsInvariant(o, s, later);
    RetiredStays(o, s, later);
  }

  /** No process of the unit outlives the cleanup deadline by more than the launch came late:
      a delay of at most five seconds between working out the lifetime and launching is covered. */
  lemma EndsByCleanupDeadline(o: Owner, now: real, boot: nat, actions: seq<Action>)
    ensures var s := Run(o, Initial(now, boot), actions);
      s.members > 0 ==>
        && s.plan.Some? && s.unit.Active?
        && s.now <= o.cleanup + (s.unit.launched - s.plan.value.computed - 5.0)
        && (s.unit.launched - s.plan.value.computed <= 5.0 ==> s.now <= o.cleanup)
  {
    RunKeepsInvariant(o, Initial(now, boot), actions);
    var s := Run(o, Initial(now, boot), actions);
    if s.members > 0 {
      LifetimeFits(o, s.plan.value.computed);
    }
  }

  lemma LifetimeFits(o: Owner, at: real)
    ensures Lifetime(o, at) as real + 20.0 <= o.cleanup - at
  {
  }

  /** The owner waits for the recorded server, and the server for its release, at most 60 and 15 seconds, and
      neither beyond admission; a launch that is not answered ends the owner, whether or not it takes effect. */
  lemma WaitsAre(o: Owner, s: State, a: Action)
    ensures var t := Next(o, s, a);
      && (s.starter.Launched? && t.starter.Polling? ==>
            var deadline := t.starter.deadline;
            deadline <= s.now + 60.0 && deadline <= o.admission && deadline in {s.now + 60.0, o.admission})
      && (s.server.Entered? && t.server.Registered? ==>
            var deadline := t.server.deadline;
            deadline <= s.now + 15.0 && deadline <= o.admission && deadline in {s.now + 15.0, o.admission})
      && (a.StarterStep? && s.starter.Planned? && !a.answered ==> t.launches == s.launches + 1 && t.starter.Dead?)
  {
  }

  /** What the stopper's own steps stop is the recorded unit: the recorded invocation, running and contained, when
      it was answered; and a receipt of retirement is written only for an empty cgroup. */
  lemma StopsOnlyOwn(o: Owner, s: State, answered: bool, cleared: bool)
    requires Invariant(o, s)
    ensures var t := Next(o, s, StopperStep(answered, cleared));
      && (t.members != s.members || t.server != s.server ==>
            && answered && cleared && s.members > 0 && t.members == 0 && t.server.Off?
            && s.unit.Active? && s.unit.contained && s.service.Some?
            && s.unit.invocation == s.service.value.invocation)
      && (t.retired != s.retired ==> t.retired == s.service && s.members == 0)
      && (!answered && s.stopper.Identified? ==> t.stopper.Idle?)
      && t.unit == s.unit && t.plan == s.plan && t.service == s.service && t.release == s.release
  {
  }

  /** An owner that has not released the server when admission is over dies within six steps of its own, or writes
      the release that it had decided on before. */
  lemma {:induction false} LateOwnerStops(o: Owner, s: State, steps: seq<Action>)
    requires Invariant(o, s) && s.now >= o.admission
    requires |steps| == 6 && forall a <- steps :: a.StarterStep?
    ensures var t := Run(o, s, steps).starter;
      if s.starter.Ready? || s.starter.Released? then t.Released? else t.Dead?
  {
    StopsWithin(o, s, steps);
  }

  /** So many steps at most are left to a late owner. */
  ghost function StepsLeft(r: Starter): nat {
    match r
    case Cleared(_, _) => 6
    case Planned => 5
    case Launched => 4
    case Polling(_) => 3
    case Begin => 3
    case Recorded(_) => 2
    case Unattempted => 2
    case Verified(_, _) => 1
    case Computed(_, _) => 1
    case Ready(_, _) => 1
    case Released => 0
    case Dead => 0
  }

  lemma LateStep(o: Owner, s: State, a: Action)
    requires Invariant(o, s) && s.now >= o.admission && a.StarterStep?
    ensures var t := Next(o, s, a);
      && t.now == s.now
      && (StepsLeft(s.starter) > 0 ==> StepsLeft(t.starter) < StepsLeft(s.starter))
      && (StepsLeft(s.starter) == 0 ==> t.starter == s.starter)
      && (t.starter.Ready? || t.starter.Released? <==> s.starter.Ready? || s.starter.Released?)
  {
    hide Invariant, Lifetime;
    assert Admission(o, s) by {
      AdmissionOf(o, s);
    }
  }

  lemma AdmissionOf(o: Owner, s: State)
    requires Invariant(o, s)
    ensures Admission(o, s)
  {
  }

  lemma {:induction false} StopsWithin(o: Owner, s: State, steps: seq<Action>)
    requires Invariant(o, s) && s.now >= o.admission
    requires |steps| >= StepsLeft(s.starter) && forall a <- steps :: a.StarterStep?
    ensures var t := Run(o, s, steps).starter;
      if s.starter.Ready? || s.starter.Released? then t.Released? else t.Dead?
    decreases |steps|
  {
    hide Invariant;
    if steps != [] {
      NextKeepsInvariant(o, s, steps[0]);
      LateStep(o, s, steps[0]);
      hide Next;
      StopsWithin(o, Next(o, s, steps[0]), steps[1..]);
    }
  }

  lemma Extend(o: Owner, start: State, actions: seq<Action>, s: State, a: Action) returns (more: seq<Action>, t: State)
    requires Run(o, start, actions) == s
    ensures Run(o, start, more) == t == Next(o, s, a) && more == actions + [a]
  {
    RunOneMore(o, start, actions, a);
    more, t := actions + [a], Next(o, s, a);
  }

  lemma LaunchIsInReach(o: Owner, now: real, boot: nat) returns (actions: seq<Action>, s: State)
    requires now < o.admission && Lifetime(o, now) > 0
    ensures Run(o, Initial(now, boot), actions) == s
    ensures s == Initial(now, boot).(plan := Some(Plan(1, Lifetime(o, now), now)), unit := Starting(now), launches := 1,
                                     starter := Launched)
  {
    hide Run, Lifetime;
    var start, step := Initial(now, boot), StarterStep(true, 1);
    RunOfNone(o, start);
    actions, s := Extend(o, start, [], start, step);
    actions, s := Extend(o, start, actions, s, step);
    actions, s := Extend(o, start, actions, s, step);
    actions, s := Extend(o, start, actions, s, step);
    actions, s := Extend(o, start, actions, s, step);
  }

  /** The handshake can succeed: whenever the plan leaves a second to live and admission is open,
      some run ends with the server serving, and another goes on from there to its retirement; time may
      pass meanwhile, and both sides may look in vain before the other is ready. */
  lemma ServingAndRetiredAreInReach(o: Owner, now: real, boot: nat) returns (serving: seq<Action>, retired: seq<Action>)
    requires now < o.admission && o.cleanup - now >= 21.0
    ensures Run(o, Initial(now, boot), serving).server.Serving? && Run(o, Initial(now, boot), serving).now > now
    ensures Run(o, Initial(now, boot), retired).retired.Some?
  {
    assert Lifetime(o, now) > 0;
    hide Run, Lifetime;
    var start, step := Initial(now, boot), StarterStep(true, 1);
    var s;
    serving, s := LaunchIsInReach(o, now, boot);
    serving, s := Extend(o, start, serving, s, step);
    serving, s := Extend(o, start, serving, s, UnitStarts(7));
    var wait := Min(1.0, (o.admission - now) / 2.0);
    assert 0.0 < wait <= 1.0 && now + wait < o.admission;
    hide Min;
    serving, s := Extend(o, start, serving, s, Tick(wait));
    serving, s := Extend(o, start, serving, s, step);
    serving, s := Extend(o, start, serving, s, step);
    serving, s := RegistrationIsInReach(o, start, serving, s);
    serving, s := VerificationIsInReach(o, start, serving, s);
    serving, s := Extend(o, start, serving, s, ServerStep);
    serving, s := Extend(o, start, serving, s, ServerStep);
    serving, s := Extend(o, start, serving, s, ServerStep);
    assert s.server.Serving?;
    RetirementIsInReach(o, now, boot, serving);
    RunOnward(o, start, serving, [StopperStep(true, true), StopperStep(true, true), StopperStep(true, true),
                                  StopperStep(true, true)]);
    retired := serving + [StopperStep(true, true), StopperStep(true, true), StopperStep(true, true),
                          StopperStep(true, true)];
  }

  lemma RegistrationIsInReach(o: Owner, start: State, actions: seq<Action>, s: State)
    returns (more: seq<Action>, t: State)
    requires Run(o, start, actions) == s && s.server.Entered? && s.plan.Some? && s.unit.Active? && s.release.None?
    requires s.now < o.admission
    ensures Run(o, start, more) == t
    ensures t.server.Registered? && t.service.Some?
    ensures var receipt := Receipt(s.plan.value, s.unit.invocation, s.boot);
      t == s.(service := Some(receipt), server := Registered(t.server.deadline, receipt))
  {
    hide Run;
    more, t := Extend(o, start, actions, s, ServerStep);
    more, t := Extend(o, start, more, t, ServerStep);
    more, t := Extend(o, start, more, t, ServerStep);
  }

  lemma VerificationIsInReach(o: Owner, start: State, actions: seq<Action>, s: State)
    returns (more: seq<Action>, t: State)
    requires Run(o, start, actions) == s && s.starter.Polling? && s.now < s.starter.deadline
    requires Identity(s) && Running(s, s.service.value)
    ensures Run(o, start, more) == t
    ensures t == s.(starter := Released, verified := s.service, release := s.service, releaseChecked := s.now)
  {
    hide Run;
    var step := StarterStep(true, 1);
    more, t := Extend(o, start, actions, s, step);
    more, t := Extend(o, start, more, t, step);
    more, t := Extend(o, start, more, t, step);
    more, t := Extend(o, start, more, t, step);
  }

  /** From every reachable state in which the recorded server is of this boot, and its unit is either
      empty or running and contained, four answered steps of the stopper retire it. */
  lemma RetirementIsInReach(o: Owner, now: real, boot: nat, actions: seq<Action>)
    requires var s := Run(o, Initial(now, boot), actions);
      && s.stopper.Idle? && s.retired.None? && s.service.Some? && s.service.value.boot == s.boot
      && (s.members == 0 || (s.unit.Active? && s.unit.invocation == s.service.value.invocation && s.unit.contained))
    ensures var s := Run(o, Initial(now, boot), actions);
      var t := Run(o, s, [StopperStep(true, true), StopperStep(true, true), StopperStep(true, true),
                          StopperStep(true, true)]);
      t.retired == s.service && t.members == 0 && t.server.Off?
  {
    var s := Run(o, Initial(now, boot), actions);
    RunKeepsInvariant(o, Initial(now, boot), actions);
    hide Run, Timed, Lifetime;
    var stop, t := StopperStep(true, true), s;
    var steps := [];
    RunOfNone(o, s);
    steps, t := Extend(o, s, steps, t, stop);
    steps, t := Extend(o, s, steps, t, stop);
    steps, t := Extend(o, s, steps, t, stop);
    steps, t := Extend(o, s, steps, t, stop);
    assert steps == [stop, stop, stop, stop];
  }

  lemma {:induction false} RunOnward(o: Owner, s: State, actions: seq<Action>, more: seq<Action>)
    ensures Run(o, s, actions + more) == Run(o, Run(o, s, actions), more)
    decreases |actions|
  {
    if actions == [] {
      assert [] + more == more;
    } else {
      assert (actions + more)[1..] == actions[1..] + more;
      RunOnward(o, Next(o, s, actions[0]), actions[1..], more);
    }
  }

  lemma RunOfNone(o: Owner, s: State)
    ensures Run(o, s, []) == s
  {
  }
}
