/** The kernel's process table, as far as a parent that retires a process group relies on it. */
module ProcessTable {
  import opened Wrappers

  datatype State = Running | Zombie(code: int)

  /** `doomed` processes have been sent SIGKILL: they can only exit. */
  datatype Process = Process(group: nat, state: State, doomed: bool)

  /** `child` is our own unreaped child; `stolen` says that someone else has reaped a child of ours. */
  datatype Table = Table(processes: map<nat, Process>, child: Option<nat>, stolen: bool)

  /** What other processes may do between two of our steps. */
  datatype Action =
    | Fork(parent: nat, pid: nat)
    | Spawn(pid: nat)
    | Exit(pid: nat, code: int)
    | Reap(pid: nat)
    | Leave(pid: nat)
    | Steal

  /** A number is handed out only when it names neither a process nor a group. */
  predicate Fresh(t: Table, pid: nat) {
    pid !in t.processes && forall p :: p in t.processes ==> t.processes[p].group != pid
  }

  function Act(t: Table, a: Action): Table {
    match a
    case Fork(parent, pid) =>
      if parent in t.processes && t.processes[parent].state == Running && !t.processes[parent].doomed && Fresh(t, pid)
      then t.(processes := t.processes[pid := Process(t.processes[parent].group, Running, false)])
      else t
    case Spawn(pid) =>
      if Fresh(t, pid) then t.(processes := t.processes[pid := Process(pid, Running, false)]) else t
    case Exit(pid, code) =>
      if pid in t.processes && t.processes[pid].state == Running
      then t.(processes := t.processes[pid := t.processes[pid].(state := Zombie(code))])
      else t
    case Reap(pid) =>
      if pid in t.processes && t.processes[pid].state.Zombie? && t.child != Some(pid)
      then t.(processes := t.processes - {pid})
      else t
    case Leave(pid) =>
      if pid in t.processes && t.processes[pid].state == Running
         && forall p :: p in t.processes ==> t.processes[p].group != pid
      then t.(processes := t.processes[pid := t.processes[pid].(group := pid)])
      else t
    case Steal =>
      if t.child.Some? && t.child.value in t.processes && t.processes[t.child.value].state.Zombie?
      then Table(t.processes - {t.child.value}, None, true)
      else t
  }

  function Run(t: Table, actions: seq<Action>): Table
    decreases |actions|
  {
    if actions == [] then t else Run(Act(t, actions[0]), actions[1..])
  }

  /** The processes of a group that can still run. */
  ghost function Members(t: Table, group: nat): set<nat> {
    set p | p in t.processes && t.processes[p].group == group && t.processes[p].state == Running
  }

  /** SIGKILL to every process of the group. */
  function Kill(t: Table, group: nat): Table {
    t.(processes := map p | p in t.processes ::
         if t.processes[p].group == group && t.processes[p].state == Running
         then t.processes[p].(doomed := true) else t.processes[p])
  }

  /** Every process of the group that can still run is doomed, and no other process is touched. */
  lemma KillIs(t: Table, group: nat, pid: nat)
    ensures var u := Kill(t, group);
      && u.child == t.child && u.stolen == t.stolen && (pid in u.processes <==> pid in t.processes)
      && (pid in t.processes ==>
           u.processes[pid] ==
             if t.processes[pid].group == group && t.processes[pid].state.Running?
             then t.processes[pid].(doomed := true) else t.processes[pid])
  {
  }

  /** Others may start a process under a fresh number, in a group of its own or, from a running process that is not
      doomed, in that one's group; and every running process may exit. */
  lemma OthersMay(t: Table, p: nat, number: nat, code: int)
    requires number !in t.processes && forall q :: q in t.processes ==> t.processes[q].group != number
    ensures Run(t, [Spawn(number)]) == t.(processes := t.processes[number := Process(number, Running, false)])
    ensures p in t.processes && t.processes[p].state == Running ==>
      && Run(t, [Exit(p, code)]) == t.(processes := t.processes[p := t.processes[p].(state := Zombie(code))])
      && (!t.processes[p].doomed ==>
           Run(t, [Fork(p, number)]) ==
             t.(processes := t.processes[number := Process(t.processes[p].group, Running, false)]))
  {
    assert forall a: Action :: Run(t, [a]) == Run(Act(t, a), []);
  }

  /** Our unreaped child leads the group, so its number cannot be given to anyone else. */
  ghost predicate Reserved(t: Table, group: nat) {
    t.child == Some(group) && group in t.processes && t.processes[group].group == group
  }

  /** No process of the group can fork any more. */
  ghost predicate Sealed(t: Table, group: nat) {
    forall p :: p in Members(t, group) ==> t.processes[p].doomed
  }

  lemma ActSealed(t: Table, group: nat, a: Action)
    requires Reserved(t, group) && Sealed(t, group) && Act(t, a).child == Some(group)
    ensures Reserved(Act(t, a), group)
    ensures Sealed(Act(t, a), group) && Members(Act(t, a), group) <= Members(t, group)
  {
    var u := Act(t, a);
    forall p | p in Members(u, group) ensures p in Members(t, group) && u.processes[p].doomed {
      assert p in Members(t, group);
    }
  }

  /** Nobody can give us a child or take the mark of a theft away. */
  lemma {:induction false} ChildrenAreNotGiven(t: Table, actions: seq<Action>)
    ensures Run(t, actions).child == t.child || (Run(t, actions).child == None && Run(t, actions).stolen)
    ensures t.stolen ==> Run(t, actions).stolen
    ensures t.child == None ==> Run(t, actions).child == None && Run(t, actions).stolen == t.stolen
    decreases |actions|
  {
    if actions != [] {
      ChildrenAreNotGiven(Act(t, actions[0]), actions[1..]);
    }
  }

  /** After SIGKILL the group of an unreaped child only shrinks, whatever forks, exits or
      leaves meanwhile, and its number is given to nobody. */
  lemma {:induction false} SealedGroupShrinks(t: Table, group: nat, actions: seq<Action>)
    requires Reserved(t, group) && Sealed(t, group) && Run(t, actions).child == Some(group)
    ensures Reserved(Run(t, actions), group)
    ensures Sealed(Run(t, actions), group) && Members(Run(t, actions), group) <= Members(t, group)
    decreases |actions|
  {
    if actions != [] {
      ChildrenAreNotGiven(Act(t, actions[0]), actions[1..]);
      ActSealed(t, group, actions[0]);
      SealedGroupShrinks(Act(t, actions[0]), group, actions[1..]);
    }
  }

  lemma KillSeals(t: Table, group: nat)
    ensures Sealed(Kill(t, group), group) && Members(Kill(t, group), group) == Members(t, group)
    ensures Reserved(t, group) ==> Reserved(Kill(t, group), group)
    ensures Kill(t, group).stolen == t.stolen
  {
  }

  /** Our child is unreaped and leads its group, or someone else has reaped it. */
  ghost predicate Held(t: Table, group: nat) {
    Reserved(t, group) || (t.child == None && t.stolen)
  }

  lemma {:induction false} HeldLasts(t: Table, group: nat, actions: seq<Action>)
    requires Held(t, group)
    ensures Held(Run(t, actions), group)
    decreases |actions|
  {
    if actions != [] {
      HeldLasts(Act(t, actions[0]), group, actions[1..]);
    }
  }

  /** Our child has exited with this status and is not reaped. */
  ghost predicate Exited(t: Table, group: nat, code: int) {
    Reserved(t, group) && t.processes[group].state == Zombie(code)
  }

  lemma {:induction false} ExitLasts(t: Table, group: nat, code: int, actions: seq<Action>)
    requires Exited(t, group, code) && Run(t, actions).child == Some(group)
    ensures Exited(Run(t, actions), group, code)
    decreases |actions|
  {
    if actions != [] {
      ChildrenAreNotGiven(Act(t, actions[0]), actions[1..]);
      ExitLasts(Act(t, actions[0]), group, code, actions[1..]);
    }
  }
}
