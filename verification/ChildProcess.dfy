/** The bounded child of the CI supervisor: start it in its own group, watch it without
    reaping it, and retire the whole group before its number can be reused. */
module ChildProcess {
  import opened ProcessTable
  import opened Wrappers

  datatype Signal = Interrupt | Terminate

  /** The caller's handler raises; ours only records. */
  datatype Handler = Raising | Recording

  datatype Error =
    | NoTime
    | CallerInterrupt
    | Interrupted
    | Expired
    | NotStarted
    | NotOurChild
    | GroupSurvived
    | ExitCode(code: int)

  datatype Result = Success | Failure(error: Error)

  /** One of our steps: what other processes do first, which signal arrives, whether the
      time allowed has run out, and which number a new child gets (none if it cannot start). */
  datatype Turn = Turn(actions: seq<Action>, signal: Option<Signal>, late: bool, pid: Option<nat>)

  /** What a step does itself: nothing but look, start the child, kill its group, or reap it. */
  datatype Doing = Look | Launch | Shot(group: nat) | Wait(group: nat)

  /** The process table that a step met. */
  datatype Moment = Moment(at: Table, doing: Doing)

  /** What every run of other processes preserves. */
  ghost predicate Passes(t: Table, u: Table) {
    && (t.stolen ==> u.stolen)
    && (forall g: nat :: Held(t, g) ==> Held(u, g))
    && (t.child == None ==> u.child == None && u.stolen == t.stolen)
    && (forall g: nat :: Reserved(t, g) && Sealed(t, g) && u.child == Some(g) ==>
          Sealed(u, g) && Members(u, g) <= Members(t, g))
    && (forall g: nat, c :: Exited(t, g, c) && u.child == Some(g) ==> Exited(u, g, c))
  }

  lemma RunPasses(t: Table, actions: seq<Action>)
    ensures Passes(t, Run(t, actions))
  {
    ChildrenAreNotGiven(t, actions);
    forall g: nat | Held(t, g) ensures Held(Run(t, actions), g) {
      HeldLasts(t, g, actions);
    }
    forall g: nat, c | Exited(t, g, c) && Run(t, actions).child == Some(g) ensures Exited(Run(t, actions), g, c) {
      ExitLasts(t, g, c, actions);
    }
    forall g: nat | Reserved(t, g) && Sealed(t, g) && Run(t, actions).child == Some(g)
      ensures Sealed(Run(t, actions), g) && Members(Run(t, actions), g) <= Members(t, g)
    {
      SealedGroupShrinks(t, g, actions);
    }
  }

  /** The process table after our own step. */
  function Effect(met: Table, doing: Doing, pid: Option<nat>): Table {
    match doing
    case Look => met
    case Launch =>
      if pid.Some? && Fresh(met, pid.value)
      then Table(met.processes[pid.value := Process(pid.value, Running, false)], pid, met.stolen) else met
    case Shot(group) => Kill(met, group)
    case Wait(group) => if met.child == Some(group) then Table(met.processes - {group}, None, met.stolen) else met
  }

  /** When a step may be taken: a child is started only when there is none, a kill is sent only to
      the group of our unreaped child, and it is reaped only when nothing of its group can run. */
  ghost predicate Ready(t: Table, doing: Doing) {
    match doing
    case Look => true
    case Launch => t.child == None
    case Shot(group) => Reserved(t, group)
    case Wait(group) => Held(t, group) && (t.child == Some(group) ==> Sealed(t, group) && Members(t, group) == {})
  }

  class Supervisor {
    const schedule: seq<Turn>
    const first: Table
    var turn: nat
    var table: Table
    var onInterrupt: Handler
    var onTerminate: Handler
    var interruption: bool
    /** The moment of every step so far. */
    ghost var log: seq<Moment>

    constructor (schedule: seq<Turn>, table: Table)
      ensures Valid() && turn == 0 && onInterrupt == onTerminate == Raising
      ensures this.schedule == schedule && this.table == table && log == []
    {
      this.schedule, this.table, first, turn, log := schedule, table, table, 0, [];
      onInterrupt, onTerminate, interruption := Raising, Raising, false;
    }

    /** The log leads from the first process table to the present one, one step after the other. */
    ghost predicate Valid()
      reads this`turn, this`table, this`log
    {
      Leads(log, turn, table)
    }

    ghost predicate Leads(log: seq<Moment>, turn: nat, table: Table) {
      turn == |log| && (forall i :: 0 <= i < |log| ==> Explained(log, i)) && table == After(log, turn)
    }

    ghost function After(log: seq<Moment>, n: nat): Table
      requires n <= |log|
    {
      if n == 0 then first else Effect(log[n - 1].at, log[n - 1].doing, TurnAt(n - 1).pid)
    }

    ghost predicate Explained(log: seq<Moment>, i: nat)
      requires i < |log|
    {
      log[i].at == Run(After(log, i), TurnAt(i).actions) && Ready(After(log, i), log[i].doing)
    }

    /** When the schedule is over every time allowed has run out. */
    function TurnAt(i: nat): Turn {
      if i < |schedule| then schedule[i] else Turn([], None, true, None)
    }

    function HandlerOf(signal: Signal): Handler
      reads this`onInterrupt, this`onTerminate
    {
      if signal == Interrupt then onInterrupt else onTerminate
    }

    /** Whether the next step brings this signal. */
    predicate Arriving(signal: Signal)
      reads this`turn
    {
      TurnAt(turn).signal == Some(signal)
    }

    /** Every kill was sent to the group of a child that was unreaped when it was last looked at; its
        number was still reserved when the signal went out, unless someone else reaped the child
        just before. */
    lemma KillsAreReserved(i: nat)
      requires Valid() && i < turn && log[i].doing.Shot?
      ensures Reserved(After(log, i), log[i].doing.group)
      ensures Reserved(log[i].at, log[i].doing.group) || log[i].at.stolen
    {
      assert Explained(log, i);
      HeldLasts(After(log, i), log[i].doing.group, TurnAt(i).actions);
    }

    /** When a child was reaped nothing of its group could run. */
    lemma ReapsLeaveNothing(i: nat)
      requires Valid() && i < turn && Reaps(log[i])
      ensures Members(log[i].at, log[i].doing.group) == {} && After(log, i + 1).child == None
    {
      assert Explained(log, i);
      RunPasses(After(log, i), TurnAt(i).actions);
      ChildrenAreNotGiven(After(log, i), TurnAt(i).actions);
    }

    /** In this step our child was reaped. */
    ghost predicate Reaps(m: Moment) {
      m.doing.Wait? && m.at.child == Some(m.doing.group)
    }

    ghost function ReapCount(log: seq<Moment>, start: nat): (n: nat)
      ensures |log| <= start ==> n == 0
    {
      if |log| <= start then 0
      else ReapCount(log[..|log| - 1], start) + if Reaps(log[|log| - 1]) then 1 else 0
    }

    /** From some step on, only the group with this leader was killed or reaped, and no child was started. */
    ghost predicate OnlyAt(log: seq<Moment>, start: nat, leader: nat) {
      forall i :: start <= i < |log| ==> log[i].doing in {Look, Shot(leader), Wait(leader)}
    }

    /** From some step on we only looked. */
    ghost predicate OnlyLooks(log: seq<Moment>, start: nat) {
      forall i :: start <= i < |log| ==> log[i].doing == Look
    }

    lemma {:induction false} LooksReapNothing(log: seq<Moment>, start: nat, leader: nat)
      requires OnlyLooks(log, start)
      ensures ReapCount(log, start) == 0 && OnlyAt(log, start, leader)
      decreases |log|
    {
      if |log| > start {
        LooksReapNothing(log[..|log| - 1], start, leader);
      }
    }

    lemma {:induction false} CountAdds(before: seq<Moment>, log: seq<Moment>, start: nat)
      requires before <= log && start <= |before|
      ensures ReapCount(log, start) == ReapCount(before, start) + ReapCount(log, |before|)
      decreases |log|
    {
      if |log| > |before| {
        CountAdds(before, log[..|log| - 1], start);
      } else {
        assert before == log;
      }
    }

    lemma OnlyAtOn(before: seq<Moment>, log: seq<Moment>, start: nat, leader: nat)
      requires before <= log && OnlyAt(before, start, leader) && OnlyAt(log, |before|, leader)
      ensures OnlyAt(log, start, leader)
    {
      forall i | start <= i < |log| ensures log[i].doing in {Look, Shot(leader), Wait(leader)} {
        assert i < |before| ==> log[i] == before[i];
      }
    }

    /** The rest of the system acts, a signal is recorded by our handler and raised by the caller's,
        and then our own step takes effect. */
    method Step(doing: Doing) returns (raised: bool, late: bool, met: Table)
      requires Valid() && Ready(table, doing)
      modifies this`turn, this`table, this`interruption, this`log
      ensures Valid() && turn == old(turn) + 1 && late == TurnAt(old(turn)).late
      ensures interruption <==> old(interruption) || (TurnAt(old(turn)).signal.Some? && !raised)
      ensures raised <==> ((old(Arriving(Interrupt)) && onInterrupt == Raising)
                           || (old(Arriving(Terminate)) && onTerminate == Raising))
      ensures |log| == |old(log)| + 1 && old(log) <= log && log[|old(log)|].doing == doing
      ensures log[|old(log)|].at == met && Passes(old(table), met)
      ensures table == Effect(met, doing, TurnAt(old(turn)).pid)
    {
      var t := TurnAt(turn);
      met := Run(table, t.actions);
      RunPasses(table, t.actions);
      LogGrows(Moment(met, doing));
      hide Leads, Passes, Run, Ready, Effect;
      log := log + [Moment(met, doing)];
      table := Effect(met, doing, t.pid);
      turn := turn + 1;
      raised, late := false, t.late;
      if t.signal.Some? {
        OneOfTwo(t.signal);
        if HandlerOf(t.signal.value) == Raising {
          raised := true;
        } else {
          interruption := true;
        }
      }
    }

    lemma LogGrows(m: Moment)
      requires Valid() && Ready(table, m.doing) && m.at == Run(table, TurnAt(turn).actions)
      ensures Leads(log + [m], turn + 1, Effect(m.at, m.doing, TurnAt(turn).pid))
    {
      hide Run, Ready, Effect, TurnAt;
      var more := log + [m];
      forall i | 0 <= i < turn ensures Explained(more, i) {
        assert Explained(log, i);
        assert more[i] == log[i] && (i > 0 ==> more[i - 1] == log[i - 1]);
      }
      assert turn > 0 ==> more[turn - 1] == log[turn - 1];
      assert Explained(more, turn);
      hide Explained;
    }

    lemma OneOfTwo(signal: Option<Signal>)
      ensures signal == None || signal == Some(Interrupt) || signal == Some(Terminate)
    {
      if signal.Some? {
        assert signal.value == Interrupt || signal.value == Terminate;
      }
    }

    /** Put our recording handlers in place; a signal caught in between raises. */
    method Install() returns (raised: bool)
      requires Valid() && onInterrupt == onTerminate == Raising && table.child == None
      modifies this`turn, this`table, this`interruption, this`onInterrupt, this`onTerminate, this`log
      ensures Valid() && turn == old(turn) + 1 && old(log) <= log && OnlyLooks(log, |old(log)|)
      ensures table.child == None && table.stolen == old(table.stolen)
      ensures raised <==> old(Arriving(Terminate))
      ensures onInterrupt == Recording && (onTerminate == Recording <==> !raised)
      ensures interruption <==> old(Arriving(Interrupt))
    {
      OneOfTwo(TurnAt(turn).signal);
      interruption := false;
      onInterrupt := Recording;
      var late, met;
      raised, late, met := Step(Look);
      if !raised {
        onTerminate := Recording;
      }
    }

    /** Put the caller's handlers back, SIGINT first.  An interrupt that arrives before SIGTERM's
        turn raises at once and leaves the recording handler on SIGTERM. */
    method Restore() returns (raised: bool)
      requires Valid()
      modifies this`turn, this`table, this`interruption, this`onInterrupt, this`onTerminate, this`log
      ensures Valid() && turn == old(turn) + 1 && old(log) <= log && OnlyLooks(log, |old(log)|)
      ensures onInterrupt == Raising
      ensures raised <==> old(Arriving(Interrupt)) || (old(Arriving(Terminate)) && old(onTerminate) == Raising)
      ensures onTerminate == Recording <==> old(onTerminate) == Recording && old(Arriving(Interrupt))
      ensures old(table.stolen) ==> table.stolen
      ensures old(table.child) == None ==> table.child == None && table.stolen == old(table.stolen)
    {
      onInterrupt := Raising;
      var late, met;
      raised, late, met := Step(Look);
      if !raised {
        onTerminate := Raising;
      }
    }

    /** A process of the group could still run. */
    ghost predicate Survives(t: Table, leader: nat) {
      exists p <- t.processes :: t.processes[p].group == leader && t.processes[p].state == Running
    }

    /** Our unreaped child had not exited. */
    ghost predicate StillRuns(t: Table, leader: nat) {
      t.child == Some(leader) && leader in t.processes && t.processes[leader].state == Running
    }

    /** The last of these turns but one met a survivor, and in the last the time was over. */
    ghost predicate Outlasted(log: seq<Moment>, n: int, leader: nat) {
      2 <= n <= |log| && Survives(log[n - 2].at, leader) && TurnAt(n - 1).late
    }

    /** Is any process of the group still running?  The processes are read one after another. */
    method Scan(leader: nat) returns (alive: bool)
      requires Valid() && Held(table, leader)
      requires table.child == Some(leader) ==> Sealed(table, leader)
      requires onInterrupt == onTerminate == Recording
      modifies this`turn, this`table, this`interruption, this`log
      ensures Valid() && Held(table, leader) && old(log) <= log && OnlyLooks(log, |old(log)|)
      ensures old(table.stolen) ==> table.stolen
      ensures old(interruption) ==> interruption
      ensures table.child == Some(leader) ==> Sealed(table, leader)
      ensures table.child == Some(leader) ==> old(table).child == Some(leader)
      ensures !alive && table.child == Some(leader) ==> Members(table, leader) == {}
      ensures forall c :: old(Exited(table, leader, c)) && table.child == Some(leader) ==> Exited(table, leader, c)
      ensures |log| > |old(log)| && (alive ==> Survives(log[|log| - 1].at, leader))
    {
      hide Valid, Held;
      var raised, late, met := Step(Look);
      PassesHeld(old(table), table, leader);
      var unread := table.processes.Keys;
      alive := false;
      while unread != {}
        invariant Valid() && Held(table, leader) && old(log) <= log && OnlyLooks(log, |old(log)|)
        invariant |log| > |old(log)|
        invariant old(table.stolen) ==> table.stolen
        invariant old(interruption) ==> interruption
        invariant table.child == Some(leader) ==> Sealed(table, leader) && Members(table, leader) <= unread
        invariant table.child == Some(leader) ==> old(table).child == Some(leader)
        invariant forall c :: old(Exited(table, leader, c)) && table.child == Some(leader) ==> Exited(table, leader, c)
        decreases unread
      {
        ghost var before := table;
        raised, late, met := Step(Look);
        PassesHeld(before, table, leader);
        var p :| p in unread;
        if p in table.processes && table.processes[p].group == leader && table.processes[p].state == Running {
          alive := true;
          assert Survives(log[|log| - 1].at, leader);
          break;
        }
        unread := unread - {p};
      }
    }

    lemma PassesHeld(t: Table, u: Table, leader: nat)
      requires Passes(t, u) && Held(t, leader)
      ensures Held(u, leader) && (t.stolen ==> u.stolen) && (u.child == Some(leader) ==> t.child == Some(leader))
      ensures u.child == Some(leader) && Sealed(t, leader) ==>
        Sealed(u, leader) && Members(u, leader) <= Members(t, leader)
      ensures forall c :: Exited(t, leader, c) && u.child == Some(leader) ==> Exited(u, leader, c)
      ensures u.child == None || u.child == Some(leader)
      ensures u.child == None ==> u.stolen
    {
    }

    /** Keep the unreaped child as the group's identity until nothing of the group can run, then reap
        it.  Only its own group is killed, and the child is reaped once at most. */
    method FinishChild(leader: nat) returns (failure: Option<Error>, code: int)
      requires Valid() && Held(table, leader) && onInterrupt == onTerminate == Recording
      modifies this`turn, this`table, this`interruption, this`log
      ensures Valid() && (Held(table, leader) || table.child == None) && turn > old(turn)
      ensures old(log) <= log && OnlyAt(log, |old(log)|, leader)
      ensures old(table.stolen) ==> table.stolen
      ensures old(interruption) ==> interruption
      ensures failure == Some(NotOurChild) ==> table.stolen
      ensures failure.None? || failure == Some(NotOurChild) || failure == Some(GroupSurvived)
      ensures failure == Some(GroupSurvived) ==> TurnAt(turn - 1).late
      ensures failure == Some(GroupSurvived) ==> Outlasted(log, |log|, leader)
      ensures failure.None? ==> table.child == None
      ensures ReapCount(log, |old(log)|) <= 1 && (ReapCount(log, |old(log)|) == 1 ==> failure.None?)
      ensures failure.None? ==> ReapCount(log, |old(log)|) == 1 || table.stolen
      ensures failure.None? && ReapCount(log, |old(log)|) == 0 ==> code == 0
      ensures forall c :: old(Exited(table, leader, c)) && ReapCount(log, |old(log)|) == 1 ==> code == c
    {
      hide Valid, Passes, Held;
      LooksReapNothing(log, |log|, leader);
      while true
        invariant Valid() && Held(table, leader) && turn >= old(turn)
        invariant old(log) <= log && OnlyAt(log, |old(log)|, leader) && ReapCount(log, |old(log)|) == 0
        invariant old(table.stolen) ==> table.stolen
        invariant old(interruption) ==> interruption
        invariant table.child == Some(leader) ==> old(table).child == Some(leader)
        invariant forall c :: old(Exited(table, leader, c)) && table.child == Some(leader) ==> Exited(table, leader, c)
        decreases |schedule| - turn
      {
        ghost var h := log;
        var over;
        failure, code, over := Attempt(leader);
        CountAdds(h, log, |old(log)|);
        OnlyAtOn(h, log, |old(log)|, leader);
        if over {
          return;
        }
      }
    }

    /** One pass: check that the child is still ours, kill its group, look for survivors, and reap the
        child if there is none; otherwise look at the clock. */
    method Attempt(leader: nat) returns (failure: Option<Error>, code: int, over: bool)
      requires Valid() && Held(table, leader) && onInterrupt == onTerminate == Recording
      modifies this`turn, this`table, this`interruption, this`log
      ensures Valid() && turn > old(turn) && old(log) <= log && OnlyAt(log, |old(log)|, leader)
      ensures old(table.stolen) ==> table.stolen
      ensures old(interruption) ==> interruption
      ensures Held(table, leader) || (over && table.child == None)
      ensures !over ==> ReapCount(log, |old(log)|) == 0 && turn <= |schedule|
      ensures over ==> failure.None? || failure == Some(NotOurChild) || failure == Some(GroupSurvived)
      ensures failure == Some(NotOurChild) ==> table.stolen
      ensures failure == Some(GroupSurvived) ==> TurnAt(turn - 1).late
      ensures failure == Some(GroupSurvived) ==> Outlasted(log, |log|, leader)
      ensures over && failure.None? ==> table.child == None
      ensures ReapCount(log, |old(log)|) <= 1 && (ReapCount(log, |old(log)|) == 1 ==> over && failure.None?)
      ensures over && failure.None? ==> ReapCount(log, |old(log)|) == 1 || table.stolen
      ensures over && failure.None? && ReapCount(log, |old(log)|) == 0 ==> code == 0
      ensures ReapCount(log, |old(log)|) == 1 ==> old(table).child == Some(leader)
      ensures forall c :: old(Exited(table, leader, c)) && ReapCount(log, |old(log)|) == 1 ==> code == c
      ensures table.child == Some(leader) ==> old(table).child == Some(leader)
      ensures forall c :: old(Exited(table, leader, c)) && table.child == Some(leader) ==> Exited(table, leader, c)
    {
      hide Valid, Passes, ReapCount, Held, Survives, Outlasted, Exited;
      LogIsTurn();
      failure, code, over := None, 0, true;
      var raised, late, met := Step(Look);
      PassesHeld(old(table), table, leader);
      LooksReapNothing(log, |old(log)|, leader);
      if table.child != Some(leader) {
        return Some(NotOurChild), 0, true;
      }
      ghost var h := log;
      Shoot(leader);
      CountAdds(h, log, |old(log)|);
      ghost var h1 := log;
      var alive := Scan(leader);
      LooksReapNothing(log, |h1|, leader);
      CountAdds(h1, log, |old(log)|);
      ghost var h2 := log;
      failure, code, over := Settle(leader, alive);
      CountAdds(h2, log, |old(log)|);
      OnlyAtOn(h2, log, |old(log)|, leader);
      LogIsTurn();
    }

    /** Reap the child if nothing of its group is left, else look at the clock. */
    method Settle(leader: nat, alive: bool) returns (failure: Option<Error>, code: int, over: bool)
      requires Valid() && Held(table, leader) && onInterrupt == onTerminate == Recording && |log| > 0
      requires table.child == Some(leader) ==> Sealed(table, leader) && (!alive ==> Members(table, leader) == {})
      requires alive ==> Survives(log[|log| - 1].at, leader)
      modifies this`turn, this`table, this`interruption, this`log
      ensures Valid() && old(log) <= log && |log| == |old(log)| + 1 && OnlyAt(log, |old(log)|, leader)
      ensures old(table.stolen) ==> table.stolen
      ensures old(interruption) ==> interruption
      ensures Held(table, leader) || (over && table.child == None)
      ensures !over ==> alive && failure.None? && !TurnAt(turn - 1).late
      ensures over ==> failure.None? || failure == Some(GroupSurvived)
      ensures failure == Some(GroupSurvived) ==> alive && TurnAt(turn - 1).late && Outlasted(log, |log|, leader)
      ensures over && failure.None? ==>
        !alive && table.child == None && (ReapCount(log, |old(log)|) == 1 || (table.stolen && code == 0))
      ensures ReapCount(log, |old(log)|) <= 1 && (ReapCount(log, |old(log)|) == 1 ==> over && failure.None?)
      ensures ReapCount(log, |old(log)|) == 1 ==> old(table).child == Some(leader)
      ensures forall c :: old(Exited(table, leader, c)) && ReapCount(log, |old(log)|) == 1 ==> code == c
      ensures table.child == Some(leader) ==> old(table).child == Some(leader)
      ensures forall c :: old(Exited(table, leader, c)) && table.child == Some(leader) ==> Exited(table, leader, c)
    {
      hide Valid, Passes, ReapCount, Held, Survives, Outlasted, Exited;
      LogIsTurn();
      if !alive {
        code := Reap(leader);
        return None, code, true;
      }
      ghost var h := log;
      var raised, late, met := Step(Look);
      PassesHeld(old(table), table, leader);
      LooksReapNothing(log, |h|, leader);
      if late {
        Outlasts(h, leader);
      }
      LogIsTurn();
      return if late then Some(GroupSurvived) else None, 0, late;
    }

    lemma Outlasts(before: seq<Moment>, leader: nat)
      requires before <= log && |log| == |before| + 1 && |before| > 0
      requires Survives(before[|before| - 1].at, leader) && TurnAt(|before|).late
      ensures Outlasted(log, |log|, leader)
    {
    }

    lemma LogIsTurn()
      requires Valid()
      ensures |log| == turn
    {
    }

    /** SIGKILL to the group.  Between the check and the signal someone else may reap our child:
        then, and only then, the number is no longer reserved. */
    method Shoot(leader: nat)
      requires Valid() && Reserved(table, leader) && onInterrupt == onTerminate == Recording
      modifies this`turn, this`table, this`interruption, this`log
      ensures Valid() && Held(table, leader)
      ensures |log| == |old(log)| + 1 && old(log) <= log && log[|old(log)|].doing == Shot(leader)
      ensures ReapCount(log, |old(log)|) == 0
      ensures old(table.stolen) ==> table.stolen
      ensures old(interruption) ==> interruption
      ensures table.child == Some(leader) ==> Sealed(table, leader) && old(table).child == Some(leader)
      ensures forall c :: old(Exited(table, leader, c)) && table.child == Some(leader) ==> Exited(table, leader, c)
    {
      hide Valid;
      var raised, late, met := Step(Shot(leader));
      PassesHeld(old(table), met, leader);
      KillSeals(met, leader);
      assert log[..|log| - 1] == old(log);
    }

    /** Collect the exit status; this alone frees the child's number. */
    method Reap(leader: nat) returns (code: int)
      requires Valid() && Held(table, leader) && onInterrupt == onTerminate == Recording
      requires table.child == Some(leader) ==> Sealed(table, leader) && Members(table, leader) == {}
      modifies this`turn, this`table, this`interruption, this`log
      ensures Valid() && table.child == None
      ensures |log| == |old(log)| + 1 && old(log) <= log && log[|old(log)|].doing == Wait(leader)
      ensures ReapCount(log, |old(log)|) == (if Reaps(log[|old(log)|]) then 1 else 0)
      ensures ReapCount(log, |old(log)|) == 0 ==> table.stolen && code == 0
      ensures ReapCount(log, |old(log)|) == 1 ==> old(table).child == Some(leader)
      ensures old(table.stolen) ==> table.stolen
      ensures old(interruption) ==> interruption
      ensures forall c :: old(Exited(table, leader, c)) && ReapCount(log, |old(log)|) == 1 ==> code == c
    {
      hide Valid;
      var raised, late, met := Step(Wait(leader));
      PassesHeld(old(table), met, leader);
      assert log[..|log| - 1] == old(log);
      code := StatusOf(met, leader);
    }

    /** The status that the child exited with; zero if it is no longer ours. */
    function StatusOf(t: Table, leader: nat): int {
      if t.child == Some(leader) && leader in t.processes && t.processes[leader].state.Zombie?
      then t.processes[leader].state.code else 0
    }

    /** Nothing ended the watch in this turn: the child ran, no signal came, and there was time. */
    ghost predicate Unhurried(log: seq<Moment>, i: nat, leader: nat)
      requires i < |log|
    {
      StillRuns(log[i].at, leader) && TurnAt(i).signal.None? && !TurnAt(i).late
    }

    /** Watch the child without reaping it: its exit, an interrupt, the end of the time, or its loss. */
    method Watch(leader: nat) returns (original: Option<Error>, ghost status: Option<int>)
      requires Valid() && Held(table, leader) && onInterrupt == onTerminate == Recording
      modifies this`turn, this`table, this`interruption, this`log
      ensures Valid() && Held(table, leader) && turn > old(turn) && old(log) <= log && OnlyLooks(log, |old(log)|)
      ensures old(table.stolen) ==> table.stolen
      ensures old(interruption) ==> interruption
      ensures original.None? <==> status.Some?
      ensures original.None? ==> Exited(table, leader, status.value)
      ensures original == Some(Interrupted) ==> interruption
      ensures original == Some(NotOurChild) ==> table.stolen
      ensures original == Some(Expired) ==> TurnAt(turn - 1).late
      ensures original.Some? ==> original.value in {Interrupted, Expired, NotOurChild}
      ensures original.Some? && original.value in {Interrupted, Expired} ==> StillRuns(log[|log| - 1].at, leader)
      ensures original == Some(NotOurChild) ==> log[|log| - 1].at.child != Some(leader)
      ensures forall i :: |old(log)| <= i < |log| - 1 ==> Unhurried(log, i, leader)
      ensures old(interruption) ==> |log| == |old(log)| + 1
    {
      hide Valid, Held;
      while true
        invariant Valid() && Held(table, leader) && turn >= old(turn) && old(log) <= log && OnlyLooks(log, |old(log)|)
        invariant old(table.stolen) ==> table.stolen
        invariant old(interruption) ==> interruption
        invariant forall i :: |old(log)| <= i < |log| ==> Unhurried(log, i, leader)
        invariant interruption ==> old(interruption) && |log| == |old(log)|
        decreases |schedule| - turn
      {
        ghost var before, h := table, log;
        LogIsTurn();
        var raised, late, met := Step(Look);
        PassesHeld(before, table, leader);
        StillUnhurried(h, log, |old(log)|, leader);
        if table.child != Some(leader) {
          return Some(NotOurChild), None;
        }
        HeldIsThere(leader);
        if table.processes[leader].state.Zombie? {
          return None, Some(table.processes[leader].state.code);
        }
        if interruption {
          return Some(Interrupted), None;
        }
        if late {
          return Some(Expired), None;
        }
      }
    }

    lemma StillUnhurried(before: seq<Moment>, log: seq<Moment>, start: nat, leader: nat)
      requires before <= log && forall i :: start <= i < |before| ==> Unhurried(before, i, leader)
      ensures forall i :: start <= i < |before| ==> Unhurried(log, i, leader)
    {
      forall i | start <= i < |before| ensures Unhurried(log, i, leader) {
        assert log[i] == before[i] && Unhurried(before, i, leader);
      }
    }

    lemma HeldIsThere(leader: nat)
      requires Held(table, leader) && table.child == Some(leader)
      ensures leader in table.processes && Reserved(table, leader)
    {
    }

    /** Start the child in its own group; a signal meanwhile is only recorded. */
    method Start() returns (leader: Option<nat>)
      requires Valid() && table.child == None && onInterrupt == onTerminate == Recording
      modifies this`turn, this`table, this`interruption, this`log
      ensures Valid() && turn == old(turn) + 1
      ensures |log| == |old(log)| + 1 && old(log) <= log && log[|old(log)|].doing == Launch
      ensures ReapCount(log, |old(log)|) == 0
      ensures old(interruption) ==> interruption
      ensures table.stolen == old(table.stolen)
      ensures leader.None? ==> table.child == None
      ensures leader.Some? ==> TurnAt(old(turn)).pid == leader && Reserved(table, leader.value)
      ensures leader.Some? <==> TurnAt(old(turn)).pid.Some? && Fresh(log[|old(log)|].at, TurnAt(old(turn)).pid.value)
    {
      hide Valid;
      var raised, late, met := Step(Launch);
      leader := table.child;
      assert log[..|log| - 1] == old(log);
    }

    /** From some step on: the child with this leader, if any, was started once, only its own group
        was killed, and it was reaped once at most. */
    ghost predicate OneChild(log: seq<Moment>, start: nat, leader: Option<nat>) {
      && ReapCount(log, start) <= 1
      && (forall i, k :: start <= i < k < |log| && log[i].doing == Launch ==> log[k].doing != Launch)
      && forall i :: start <= i < |log| ==>
           log[i].doing in {Look, Launch} || (leader.Some? && log[i].doing in {Shot(leader.value), Wait(leader.value)})
    }

    lemma OneChildThen(before: seq<Moment>, log: seq<Moment>, start: nat, leader: nat)
      requires before <= log && start <= |before| && |before| > 0 && ReapCount(before, start) == 0
      requires forall i :: start <= i < |before| - 1 ==> before[i].doing == Look
      requires before[|before| - 1].doing in {Look, Launch}
      requires OnlyAt(log, |before|, leader) && ReapCount(log, |before|) <= 1
      ensures OneChild(log, start, Some(leader)) && ReapCount(log, start) == ReapCount(log, |before|)
    {
      CountAdds(before, log, start);
      hide ReapCount;
      forall i | start <= i < |log| ensures log[i].doing in {Look, Launch, Shot(leader), Wait(leader)} {
        assert i < |before| ==> log[i] == before[i];
      }
      forall i, k | start <= i < k < |log| && log[i].doing == Launch ensures log[k].doing != Launch {
        assert i < |before| ==> log[i] == before[i];
      }
    }

    /** What happened between starting the child and the last check for an interrupt. */
    method Supervise() returns (result: Result, ghost run: Account)
      requires Valid() && table.child == None && onInterrupt == onTerminate == Recording
      modifies this`turn, this`table, this`interruption, this`log
      ensures Valid() && turn >= old(turn) && old(log) <= log
      ensures OneChild(log, |old(log)|, run.leader)
      ensures old(table.stolen) ==> table.stolen
      ensures run.leader.None? ==> result == Failure(if old(interruption) then Interrupted else NotStarted)
      ensures run.leader.None? ==> turn == old(turn) + if old(interruption) then 0 else 1
      ensures run.leader.Some? ==> TurnAt(old(turn)).pid == run.leader && !old(interruption)
      ensures run.leader.Some? && run.cleanup.None? ==>
                table.child == None && (ReapCount(log, |old(log)|) == 1 || table.stolen)
      ensures run.original.Some? ==> result == Failure(run.original.value)
      ensures run.original.Some? ==> run.original.value in {Interrupted, Expired, NotOurChild}
      ensures run.original.None? && run.cleanup.Some? ==> result == Failure(run.cleanup.value)
      ensures run.cleanup.Some? ==>
        run.cleanup.value == GroupSurvived || (run.cleanup.value == NotOurChild && table.stolen)
      ensures run.leader.Some? && run.original.None? ==> run.status.Some?
      ensures run.leader.Some? && run.original.None? && run.cleanup.None? && !table.stolen ==>
                result == (if run.interrupted then Failure(Interrupted)
                           else if run.status != Some(0) then Failure(ExitCode(run.status.value)) else Success)
      ensures run.interrupted ==> interruption && result != Success
      ensures run.cleanup == Some(GroupSurvived) ==> run.leader.Some? && Outlasted(log, |log|, run.leader.value)
      ensures run.original.Some? && run.original.value in {Interrupted, Expired} ==>
        run.leader.Some? && exists i :: |old(log)| <= i < |log| && StillRuns(log[i].at, run.leader.value)
    {
      hide Valid, Passes, ReapCount, Held, OnlyAt, OnlyLooks;
      run := Account(None, None, None, None, interruption);
      NothingYet();
      if interruption {
        return Failure(Interrupted), run;
      }
      var started := Start();
      ghost var h := log;
      StartedOnly(|old(log)|);
      if started.None? {
        return Failure(NotStarted), run.(interrupted := interruption);
      }
      var leader := started.value;
      HeldFromStart(leader);
      var original;
      ghost var status;
      original, status := Watch(leader);
      ghost var h1 := log;
      LooksReapNothing(log, |h|, leader);
      var cleanup, code := FinishChild(leader);
      CountAdds(h1, log, |h|);
      OnlyAtOn(h1, log, |h|, leader);
      OneChildThen(h, log, |old(log)|, leader);
      run := Account(started, status, original, cleanup, interruption);
      if cleanup.Some? {
        return Failure(if original.Some? then original.value else cleanup.value), run;
      }
      if original.Some? {
        return Failure(original.value), run;
      }
      if interruption {
        return Failure(Interrupted), run;
      }
      result := if code != 0 then Failure(ExitCode(code)) else Success;
    }

    lemma NothingYet()
      ensures OneChild(log, |log|, None)
    {
    }

    lemma StartedOnly(start: nat)
      requires |log| == start + 1 && log[start].doing == Launch && ReapCount(log, start) == 0
      ensures OneChild(log, start, None)
    {
    }

    lemma HeldFromStart(leader: nat)
      requires Reserved(table, leader)
      ensures Held(table, leader)
    {
    }

    /** The whole bounded child.  The caller's SIGINT handler is back on every path.  Unless a signal
        ends the call before both handlers were taken over, the last turn is the one between the two
        restorations, and SIGTERM's handler stays behind exactly if that turn brings an interrupt. */
    method RunChild(timed: bool) returns (result: Result, ghost run: Account)
      requires Valid() && table.child == None && onInterrupt == onTerminate == Raising
      modifies this
      ensures Valid()
      ensures old(table.stolen) ==> table.stolen
      ensures !timed ==> result == Failure(NoTime) && turn == old(turn) && table == old(table) && log == old(log)
      ensures old(log) <= log && OneChild(log, |old(log)|, run.leader)
      ensures onInterrupt == Raising
      ensures onTerminate == Recording <==>
        timed && TakesOver(old(turn)) && turn > 0 && TurnAt(turn - 1).signal == Some(Interrupt)
      ensures timed && TakesOver(old(turn)) ==> turn >= old(turn) + 3
      ensures onTerminate == Recording ==> result == Failure(CallerInterrupt)
      ensures result == Success && !table.stolen ==>
                run.status == Some(0) && !run.interrupted && table.child == None && ReapCount(log, |old(log)|) == 1
      ensures result.Failure? && result.error.ExitCode? && !table.stolen ==>
                run.status == Some(result.error.code) && table.child == None && ReapCount(log, |old(log)|) == 1
      ensures run.leader.Some? && run.cleanup.None? ==>
                table.child == None && (ReapCount(log, |old(log)|) == 1 || table.stolen)
      ensures run.leader.Some? ==> TakesOver(old(turn)) && TurnAt(old(turn) + 2).pid == run.leader
      ensures timed && TakesOver(old(turn)) && run.leader.None? ==>
                turn == old(turn) + if TurnAt(old(turn) + 1).signal == Some(Interrupt) then 3 else 4
      ensures onTerminate == Raising && run.original.Some? ==> result == Failure(run.original.value)
      ensures onTerminate == Raising && run.original.None? && run.cleanup.Some? ==> result == Failure(run.cleanup.value)
      ensures run.interrupted ==> result != Success
      ensures run.cleanup == Some(GroupSurvived) ==>
        run.leader.Some? && Outlasted(log, turn - 1, run.leader.value)
      ensures run.original.Some? && run.original.value in {Interrupted, Expired} ==>
        run.leader.Some? && exists i :: |old(log)| <= i < |log| && StillRuns(log[i].at, run.leader.value)
    {
      hide Valid, ReapCount, OneChild, OnlyLooks, Outlasted;
      NothingYet();
      run := Account(None, None, None, None, false);
      if !timed {
        return Failure(NoTime), run;
      }
      OneOfTwo(TurnAt(turn).signal);
      var raised, late, met := Step(Look);
      LookedOnce(|old(log)|);
      if raised {
        LooksAreOneChild(|old(log)|, None);
        return Failure(CallerInterrupt), run;
      }
      ghost var h := log;
      raised := Install();
      LooksOn(h, log, |old(log)|);
      ghost var h1 := log;
      NothingYet();
      if raised {
        result := Failure(CallerInterrupt);
      } else {
        result, run := Supervise();
      }
      ghost var h2 := log;
      LogIsTurn();
      raised := Restore();
      LogIsTurn();
      if run.cleanup == Some(GroupSurvived) {
        StillOutlasted(h2, log, run.leader.value);
      }
      OneChildBetween(|old(log)|, h1, h2, run.leader);
      if raised {
        result := Failure(CallerInterrupt);
      }
    }

    lemma StillOutlasted(before: seq<Moment>, log: seq<Moment>, leader: nat)
      requires before <= log && Outlasted(before, |before|, leader)
      ensures Outlasted(log, |before|, leader)
    {
    }

    lemma LookedOnce(start: nat)
      requires |log| == start + 1 && log[start].doing == Look
      ensures OnlyLooks(log, start)
    {
    }

    lemma LooksOn(before: seq<Moment>, log: seq<Moment>, start: nat)
      requires before <= log && OnlyLooks(before, start) && OnlyLooks(log, |before|)
      ensures OnlyLooks(log, start)
    {
      forall i | start <= i < |log| ensures log[i].doing == Look {
        assert i < |before| ==> log[i] == before[i];
      }
    }

    lemma LooksAreOneChild(start: nat, leader: Option<nat>)
      requires OnlyLooks(log, start)
      ensures OneChild(log, start, leader) && ReapCount(log, start) == 0
    {
      LooksReapNothing(log, start, 0);
    }

    lemma OneChildBetween(start: nat, before: seq<Moment>, after: seq<Moment>, leader: Option<nat>)
      requires start <= |before| && before <= after <= log
      requires OnlyLooks(before, start) && OneChild(after, |before|, leader) && OnlyLooks(log, |after|)
      ensures OneChild(log, start, leader) && ReapCount(log, start) == ReapCount(after, |before|)
    {
      LooksReapNothing(before, start, 0);
      LooksReapNothing(log, |after|, 0);
      CountAdds(before, after, start);
      CountAdds(after, log, start);
      hide ReapCount;
      forall i | start <= i < |log|
        ensures log[i].doing in {Look, Launch}
                || (leader.Some? && log[i].doing in {Shot(leader.value), Wait(leader.value)})
        ensures log[i].doing == Launch ==> |before| <= i < |after|
      {
        assert i < |before| ==> log[i] == before[i];
        assert i < |after| ==> log[i] == after[i];
      }
      forall i, k | start <= i < k < |log| && log[i].doing == Launch ensures log[k].doing != Launch {
        assert k < |after| ==> log[k] == after[k] && log[i] == after[i];
      }
    }

    /** No signal ends a call that begins in this turn before both handlers are ours: none in its
        first turn, and no SIGTERM after SIGINT's handler alone was taken over. */
    predicate TakesOver(i: nat) {
      TurnAt(i).signal.None? && TurnAt(i + 1).signal != Some(Terminate)
    }
  }

  /** A run in which SIGTERM's handler stays behind: no child can be started, and an interrupt comes
      between the two restorations. */
  method TornRun() returns (s: Supervisor)
    ensures s.onInterrupt == Raising && s.onTerminate == Recording
  {
    var quiet := Turn([], None, false, None);
    s := new Supervisor([quiet, quiet, quiet, quiet.(signal := Some(Interrupt))], Table(map[], None, false));
    ghost var run;
    var result;
    result, run := s.RunChild(true);
  }

  /** What one call did: the child, its exit status if it was seen, the first error, the error
      of the cleanup, and whether an interrupt was on record at the last check. */
  datatype Account = Account(leader: Option<nat>, status: Option<int>, original: Option<Error>,
                             cleanup: Option<Error>, interrupted: bool)
}
