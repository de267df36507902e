/** Cleanup of temporary, attempt-labelled image resources: a label census that deletes
    what it lists until nothing is listed, and leaves a receipt on every path. */
module ImageCleanup {
  import opened Kubernetes
  import opened Wrappers

  datatype Outcome = Returned | Rejected | Raised

  /** One turn: what the rest of the world does first, whether our request is answered, whether an
      unanswered one is carried out all the same, and whether a granted delete is graceful. */
  datatype Turn = Turn(actions: seq<Action>, answered: bool, reached: bool, graceful: bool)

  datatype Request = List(kind: Kind) | Remove(key: Key, uid: nat, version: nat)

  /** The cluster that a request met. */
  datatype Moment = Moment(at: World, request: Request)

  datatype Identity = Identity(kind: Kind, name: string, uid: nat, version: nat)

  datatype Receipt = Receipt(absent: bool, observed: seq<Identity>, remaining: Option<seq<Identity>>, failed: bool)

  const RUN_LABELS: set<string> := {"art.openpipe/build-run", "art.openpipe/prewarm-run", "art.openpipe/image-run"}

  /** Exact, non-empty labels that include a run label, at least one kind, a bounded time. */
  predicate Acceptable(selector: Labels, kinds: seq<Kind>, seconds: real) {
    && 0.0 < seconds <= 120.0 && kinds != []
    && (exists l :: l in selector && l in RUN_LABELS)
    && (forall l :: l in selector ==> l != "" && selector[l] != "")
  }

  lemma AcceptableIs(selector: Labels, kinds: seq<Kind>, seconds: real)
    ensures Acceptable(selector, kinds, seconds) <==>
      && 0.0 < seconds <= 120.0 && kinds != [] && (forall l | l in selector :: l != "" && selector[l] != "")
      && ("art.openpipe/build-run" in selector || "art.openpipe/prewarm-run" in selector
          || "art.openpipe/image-run" in selector)
  {
    assert "art.openpipe/build-run" in RUN_LABELS && "art.openpipe/prewarm-run" in RUN_LABELS
      && "art.openpipe/image-run" in RUN_LABELS;
  }

  function Identify(o: Object): Identity {
    Identity(o.key.kind, o.key.name, o.uid, o.version)
  }

  ghost function IdentifyAll(objects: set<Object>): set<Identity> {
    set o | o in objects :: Identify(o)
  }

  ghost function Elements(s: seq<Identity>): set<Identity> {
    set i | i in s
  }

  lemma OneMore(s: seq<Identity>, objects: set<Object>, o: Object)
    ensures Elements(s + [Identify(o)]) == Elements(s) + {Identify(o)}
    ensures IdentifyAll(objects + {o}) == IdentifyAll(objects) + {Identify(o)}
    ensures Identify(o) in s ==> Elements(s) == Elements(s) + {Identify(o)}
    ensures Elements([]) == {} && IdentifyAll({}) == {}
  {
  }

  lemma Regroup(a: set<Identity>, b: set<Identity>, c: set<Identity>)
    ensures a + (b + c) == (a + b) + c
  {
  }

  class Census {
    const selector: Labels
    const namespace: string
    const kinds: seq<Kind>
    const schedule: seq<Turn>
    const first: World
    var turn: nat
    var world: World
    var receipt: Option<Receipt>
    /** The moment of every turn so far. */
    ghost var log: seq<Moment>

    constructor (namespace: string, selector: Labels, kinds: seq<Kind>, schedule: seq<Turn>, world: World)
      requires Kubernetes.Valid(world)
      ensures Valid() && log == [] && receipt.None? && this.world == world
      ensures this.namespace == namespace && this.selector == selector && this.kinds == kinds &&
        this.schedule == schedule
    {
      this.namespace, this.selector, this.kinds, this.schedule := namespace, selector, kinds, schedule;
      this.world, first, turn, receipt, log := world, world, 0, None, [];
    }

    ghost predicate Valid()
      reads this`world, this`turn, this`log
    {
      Kubernetes.Valid(world) && Leads(log, turn, world)
    }

    /** When the schedule is over, or the time is, nothing is answered any more. */
    function TurnAt(i: nat): Turn {
      if i < |schedule| then schedule[i] else Turn([], false, false, false)
    }

    /** The log leads from the first state to the present one, one turn after the other: the cluster
        changes by what others do and by granted deletes only. */
    ghost predicate Leads(log: seq<Moment>, turn: nat, world: World) {
      turn == |log| && (forall i :: 0 <= i < |log| ==> Explained(log, i)) && world == After(log, turn)
    }

    ghost function After(log: seq<Moment>, n: nat): World
      requires n <= |log|
    {
      if n == 0 then first else Carried(log[n - 1].at, log[n - 1].request, TurnAt(n - 1))
    }

    /** A delete is carried out in the turn in which it is sent; nothing else changes the cluster. */
    function Carried(met: World, request: Request, t: Turn): World {
      if request.Remove? && (t.answered || t.reached)
      then AfterDelete(met, request.key, request.uid, request.version, t.graceful)
      else met
    }

    ghost predicate Explained(log: seq<Moment>, i: nat)
      requires i < |log|
    {
      var m := log[i];
      && m.at == Run(After(log, i), TurnAt(i).actions)
      && (m.request.Remove? && Reply(m.at, m.request.key, m.request.uid, m.request.version) == Deleted ==>
            Owned(m.at.objects[m.request.key]))
    }

    /** The object carries exactly the labels asked for. */
    ghost predicate Carries(o: Object) {
      forall l | l in selector :: l in o.labels && o.labels[l] == selector[l]
    }

    ghost predicate Owned(o: Object) {
      Carries(o) && o.key.namespace == namespace && o.key.kind in kinds
    }

    /** Each turn first goes as scheduled, and a delete that is answered and names the object that it meets is
        carried out. */
    lemma TurnsAreScheduled(i: nat)
      requires Valid() && i < turn && i < |schedule|
      ensures log[i].at == Run(After(log, i), schedule[i].actions)
      ensures var m := log[i];
        m.request.Remove? && schedule[i].answered && m.request.key in m.at.objects
        && m.at.objects[m.request.key].uid == m.request.uid
        && m.at.objects[m.request.key].version == m.request.version ==>
          var v := After(log, i + 1).objects;
          if schedule[i].graceful
          then m.request.key in v && v[m.request.key].version == m.at.nextVersion
          else m.request.key !in v
    {
      assert Explained(log, i);
    }

    /** In every turn so far: whatever object our request changed carried the labels at that instant.
        A delete that is answered with not found or conflict changes nothing. */
    lemma OnlyOwnedIsTouched(i: nat, key: Key)
      requires Valid() && i < turn && key in log[i].at.objects
      requires key !in After(log, i + 1).objects || After(log, i + 1).objects[key] != log[i].at.objects[key]
      ensures log[i].request.Remove? && log[i].request.key == key && Owned(log[i].at.objects[key])
      ensures var victim := log[i].at.objects[key];
        && (forall l | l in selector :: l in victim.labels && victim.labels[l] == selector[l])
        && victim.uid == log[i].request.uid && victim.version == log[i].request.version
      ensures Reply(log[i].at, key, log[i].request.uid, log[i].request.version) == Deleted
    {
      assert Explained(log, i);
    }

    /** Every identity can only be the object it names, which carries the labels while it is unchanged. */
    ghost predicate Sighted(found: seq<Identity>)
      reads this`world
    {
      SightedIn(world, found)
    }

    ghost predicate SightedIn(w: World, found: seq<Identity>) {
      forall i <- found ::
        && i.kind in kinds
        && Pinned(w, i.uid, Key(i.kind, namespace, i.name))
        && Settled(w, i.uid, i.version, selector)
    }

    lemma StaysSighted(w: World, v: World, found: seq<Identity>)
      requires Later(w, v) && SightedIn(w, found)
      ensures SightedIn(v, found)
    {
      LaterPreserves(w, v);
      hide Later, Pinned, Settled;
    }

    function Removal(i: Identity): (r: Request)
      ensures r.Remove?
      ensures r.key == Key(i.kind, namespace, i.name) && r.uid == i.uid && r.version == i.version
    {
      Request.Remove(Key(i.kind, namespace, i.name), i.uid, i.version)
    }

    /** A delete is sent only for an identity that is sighted. */
    ghost predicate Removable(r: Request)
      reads this`world
    {
      r.Remove? ==> r.key.namespace == namespace && r.key.kind in kinds && Settled(world, r.uid, r.version, selector)
    }

    method Step(request: Request) returns (answered: bool)
      requires Valid() && Removable(request)
      modifies this`turn, this`world, this`log
      ensures Valid() && Later(old(world), world)
      ensures old(log) <= log && |log| == |old(log)| + 1 && answered == TurnAt(|old(log)|).answered
      ensures log[|old(log)|].request == request && (request.List? ==> log[|old(log)|].at == world)
    {
      var t := TurnAt(turn);
      var met := Run(world, t.actions);
      ghost var m := Moment(met, request);
      NextTurn(m);
      hide Leads, Carried, Run, Later, Kubernetes.Valid, Removable;
      log := log + [m];
      world := Carried(met, request, t);
      turn := turn + 1;
      answered := t.answered;
    }

    /** One more turn is explained, whatever the request meets. */
    lemma NextTurn(m: Moment)
      requires Valid() && Removable(m.request) && m.at == Run(world, TurnAt(turn).actions)
      ensures var next := Carried(m.at, m.request, TurnAt(turn));
        && Leads(log + [m], turn + 1, next) && Kubernetes.Valid(next) && Later(world, next)
        && (m.request.List? ==> next == m.at) && |log| == turn
    {
      var t := TurnAt(turn);
      RunIsLater(world, t.actions);
      LaterIsReflexive(m.at);
      if m.request.Remove? {
        DeleteIsLater(m.at, m.request.key, m.request.uid, m.request.version, t.graceful);
        LaterPreserves(world, m.at);
        if Reply(m.at, m.request.key, m.request.uid, m.request.version) == Deleted {
          GrantedDeleteIsSelected(m.at, m.request.key, m.request.uid, m.request.version, selector);
        }
      }
      LaterIsTransitive(world, m.at, Carried(m.at, m.request, t));
      LogGrows(m);
      hide *;
    }

    lemma LogGrows(m: Moment)
      requires Leads(log, turn, world) && m.at == Run(world, TurnAt(turn).actions)
      requires m.request.Remove? && Reply(m.at, m.request.key, m.request.uid, m.request.version) == Deleted ==>
        Owned(m.at.objects[m.request.key])
      ensures Leads(log + [m], turn + 1, Carried(m.at, m.request, TurnAt(turn)))
    {
      hide Run, Owned, Carried, Reply, TurnAt;
      var more := log + [m];
      forall i | 0 <= i < turn ensures Explained(more, i) {
        assert Explained(log, i);
        assert more[i] == log[i] && (i > 0 ==> more[i - 1] == log[i - 1]);
      }
      assert turn > 0 ==> more[turn - 1] == log[turn - 1];
      assert Explained(more, turn);
      hide Explained;
    }

    /** From turn `start` on, the kinds were listed one after the other, and answered. */
    ghost predicate Listed(log: seq<Moment>, start: nat, n: nat) {
      && start + n <= |log| && n <= |kinds|
      && forall k :: 0 <= k < n ==> ListedAt(log, start, k)
    }

    ghost predicate ListedAt(log: seq<Moment>, start: nat, k: nat) {
      && start + k < |log| && k < |kinds|
      && log[start + k].request == Request.List(kinds[k]) && TurnAt(start + k).answered
    }

    /** The identities of what was listed. */
    ghost function Names(w: World, kind: Kind): set<Identity> {
      set key | key in w.objects && key.kind == kind && key.namespace == namespace && Carries(w.objects[key]) ::
        Identity(kind, key.name, w.objects[key].uid, w.objects[key].version)
    }

    lemma NamesAre(w: World, kind: Kind)
      requires Kubernetes.Valid(w)
      ensures Names(w, kind) == IdentifyAll(Listing(w, kind, namespace, selector))
    {
      var all := Listing(w, kind, namespace, selector);
      forall i ensures i in Names(w, kind) <==> i in IdentifyAll(all) {
        if i in Names(w, kind) {
          var key :| key in w.objects && key.kind == kind && key.namespace == namespace && Carries(w.objects[key])
                     && i == Identity(kind, key.name, w.objects[key].uid, w.objects[key].version);
          assert w.objects[key] in all && Identify(w.objects[key]) == i;
        }
      }
    }

    ghost function NamesOf(log: seq<Moment>, start: nat, n: nat): set<Identity>
      requires start + n <= |log| && n <= |kinds|
    {
      if n == 0 then {} else NamesOf(log, start, n - 1) + Names(log[start + n - 1].at, kinds[n - 1])
    }

    lemma {:induction false} NamesOfPrefix(before: seq<Moment>, log: seq<Moment>, start: nat, n: nat)
      requires before <= log && start + n <= |before| && n <= |kinds|
      ensures NamesOf(before, start, n) == NamesOf(log, start, n)
    {
      if n > 0 {
        NamesOfPrefix(before, log, start, n - 1);
      }
    }

    /** Lists every kind, one after the other, and finds exactly what was listed. */
    method List(before: seq<Identity>) returns (listed: bool, observed: seq<Identity>, found: seq<Identity>)
      requires Valid()
      modifies this`turn, this`world, this`log
      ensures Valid() && Later(old(world), world) && old(log) <= log && NoRemoval(log, |old(log)|)
      ensures before <= observed && Elements(observed) == Elements(before) + Elements(found)
      ensures Sighted(found)
      ensures listed ==> |log| == |old(log)| + |kinds| && Listed(log, |old(log)|, |kinds|)
      ensures listed ==> Elements(found) == NamesOf(log, |old(log)|, |kinds|)
      ensures !listed ==> |old(log)| < |log| <= |old(log)| + |kinds| && !TurnAt(|log| - 1).answered
    {
      LaterIsReflexive(world);
      hide Later, Valid, Names, SightedIn, Elements, Listed, NamesOf, NoRemoval, TurnAt;
      NothingListed();
      observed, found := before, [];
      NothingSighted();
      NothingIdentified();
      for k := 0 to |kinds|
        invariant Valid() && Later(old(world), world) && old(log) <= log && |log| == |old(log)| + k
        invariant before <= observed && Elements(observed) == Elements(before) + Elements(found)
        invariant Sighted(found) && Listed(log, |old(log)|, k) && NoRemoval(log, |old(log)|)
        invariant Elements(found) == NamesOf(log, |old(log)|, k)
      {
        ghost var previous, h := world, log;
        var answered := Step(Request.List(kinds[k]));
        LaterIsTransitive(old(world), previous, world);
        StaysSighted(previous, world, found);
        ListOne(h, |old(log)|, k);
        if !answered {
          return false, observed, found;
        }
        Regroup(Elements(before), Elements(found), Names(world, kinds[k]));
        observed, found := Note(kinds[k], observed, found);
      }
      listed := true;
    }

    lemma NothingListed()
      ensures Listed(log, |log|, 0) && NoRemoval(log, |log|) && NamesOf(log, |log|, 0) == {}
    {
    }

    lemma ListOne(before: seq<Moment>, start: nat, k: nat)
      requires before <= log && |log| == |before| + 1 && |before| == start + k && k < |kinds|
      requires Listed(before, start, k) && NoRemoval(before, start) && log[|before|].request == Request.List(kinds[k])
      ensures NoRemoval(log, start)
      ensures TurnAt(|before|).answered ==> Listed(log, start, k + 1)
      ensures NamesOf(log, start, k + 1) == NamesOf(before, start, k) + Names(log[|before|].at, kinds[k])
    {
      NamesOfPrefix(before, log, start, k);
      hide Names, TurnAt;
      if TurnAt(|before|).answered {
        forall j | 0 <= j < k + 1 ensures ListedAt(log, start, j) {
          assert j < k ==> ListedAt(before, start, j);
        }
      }
    }

    ghost predicate NoRemoval(log: seq<Moment>, start: nat) {
      forall k :: start <= k < |log| ==> !log[k].request.Remove?
    }

    lemma NothingSighted()
      ensures Sighted([])
    {
    }

    /** Adds the objects of one listing to what was found and observed: exactly those, each once. */
    method Note(kind: Kind, before: seq<Identity>, already: seq<Identity>)
        returns (observed: seq<Identity>, found: seq<Identity>)
      requires kind in kinds && Valid() && Sighted(already)
      ensures before <= observed && already <= found && Sighted(found)
      ensures Elements(found) == Elements(already) + Names(world, kind)
      ensures |found| == |already| + |Listing(world, kind, namespace, selector)|
      ensures Elements(observed) == Elements(before) + Names(world, kind)
    {
      ListedIsSighted(kind);
      NamesAre(world, kind);
      hide Valid, Listing, SightedIn, Elements, IdentifyAll, Names;
      observed, found := before, already;
      var all := Listing(world, kind, namespace, selector);
      var items := all;
      ghost var done: set<Object> := {};
      NothingIdentified();
      while items != {}
        invariant items !! done && items + done == all && |found| == |already| + |done|
        invariant before <= observed && already <= found && Sighted(found)
        invariant Elements(found) == Elements(already) + IdentifyAll(done)
        invariant Elements(observed) == Elements(before) + IdentifyAll(done)
        decreases items
      {
        var o :| o in items;
        OneMore(found, done, o);
        OneMore(observed, done, o);
        SightOne(found, o);
        Regroup(Elements(already), IdentifyAll(done), {Identify(o)});
        Regroup(Elements(before), IdentifyAll(done), {Identify(o)});
        MoveOne(items, done, o);
        items, done := items - {o}, done + {o};
        found := found + [Identify(o)];
        if Identify(o) !in observed {
          observed := observed + [Identify(o)];
        }
      }
    }

    lemma MoveOne(items: set<Object>, done: set<Object>, o: Object)
      requires items !! done && o in items
      ensures items - {o} !! done + {o} && (items - {o}) + (done + {o}) == items + done
      ensures |done + {o}| == |done| + 1
    {
    }

    lemma NothingIdentified()
      ensures IdentifyAll({}) == {} && Elements([]) == {}
    {
    }

    lemma ListedIsSighted(kind: Kind)
      requires Valid() && kind in kinds
      ensures forall o :: o in Listing(world, kind, namespace, selector) ==> SightedIn(world, [Identify(o)])
    {
      ListedIsKnown(world, kind, namespace, selector);
      hide Valid, Listing, Pinned, Settled, Selects;
      forall o | o in Listing(world, kind, namespace, selector) ensures SightedIn(world, [Identify(o)]) {
        assert Key(o.key.kind, namespace, o.key.name) == o.key;
      }
    }

    lemma SightOne(found: seq<Identity>, o: Object)
      requires Sighted(found) && SightedIn(world, [Identify(o)])
      ensures Sighted(found + [Identify(o)])
    {
      hide Pinned, Settled;
      assert Identify(o) in [Identify(o)];
    }

    /** Sends one delete for each identity found, and nothing else. */
    method Delete(found: seq<Identity>) returns (answered: bool)
      requires Valid() && Sighted(found)
      modifies this`turn, this`world, this`log
      ensures Valid() && Later(old(world), world) && old(log) <= log && |log| <= |old(log)| + |found|
      ensures forall k :: |old(log)| <= k < |log| ==> log[k].request == Removal(found[k - |old(log)|])
      ensures answered ==> |log| == |old(log)| + |found|
      ensures found != [] ==> |log| > |old(log)| && answered == TurnAt(|log| - 1).answered
    {
      LaterIsReflexive(world);
      hide Later, Pinned, Settled, Valid, TurnAt;
      for k := 0 to |found|
        invariant Valid() && Later(old(world), world) && old(log) <= log && |log| == |old(log)| + k
        invariant Sighted(found) && (k > 0 ==> TurnAt(|log| - 1).answered)
        invariant forall j :: |old(log)| <= j < |log| ==> log[j].request == Removal(found[j - |old(log)|])
      {
        ghost var previous := world;
        assert found[k] in found;
        var alive := Step(Removal(found[k]));
        StaysSighted(previous, world, found);
        LaterIsTransitive(old(world), previous, world);
        if !alive {
          return false;
        }
      }
      answered := true;
    }

    /** A round of listings of every kind from this turn on, in which nothing was listed. */
    ghost predicate EmptyRound(log: seq<Moment>, start: nat) {
      Listed(log, start, |kinds|) && NamesOf(log, start, |kinds|) == {}
    }

    ghost predicate NoEmptyRound(log: seq<Moment>, from: nat) {
      forall start: nat :: from <= start ==> !EmptyRound(log, start)
    }

    lemma NamedIfCarried(w: World, key: Key)
      requires key in w.objects && key.namespace == namespace
      ensures Carries(w.objects[key]) ==> Names(w, key.kind) != {}
    {
      hide Carries;
      if Carries(w.objects[key]) {
        assert Identity(key.kind, key.name, w.objects[key].uid, w.objects[key].version) in Names(w, key.kind);
      }
    }

    lemma {:induction false} NothingNamed(log: seq<Moment>, start: nat, n: nat, k: nat)
      requires start + n <= |log| && n <= |kinds| && NamesOf(log, start, n) == {} && k < n
      ensures forall key | key in log[start + k].at.objects && key.kind == kinds[k] && key.namespace == namespace ::
        !Carries(log[start + k].at.objects[key])
    {
      if k < n - 1 {
        NothingNamed(log, start, n - 1, k);
      } else {
        forall key | key in log[start + k].at.objects && key.kind == kinds[k] && key.namespace == namespace
          ensures !Carries(log[start + k].at.objects[key])
        {
          NamedIfCarried(log[start + k].at, key);
        }
        hide Carries, Names;
      }
    }

    /** Since then the last request, if there was one, was a delete. */
    ghost predicate Separated(log: seq<Moment>, from: nat) {
      |log| > from ==> log[|log| - 1].request.Remove?
    }

    /** Since then every delete was sent for something observed. */
    ghost predicate Requested(log: seq<Moment>, from: nat, observed: seq<Identity>) {
      forall k :: from <= k < |log| && log[k].request.Remove? ==>
        exists i :: i in observed && log[k].request == Removal(i)
    }

    lemma NoRoundYet()
      requires kinds != []
      ensures NoEmptyRound(log, |log|) && Separated(log, |log|) && Requested(log, |log|, [])
    {
    }

    lemma OldRound(before: seq<Moment>, from: nat, start: nat)
      requires before <= log && from <= start && NoEmptyRound(before, from) && kinds != []
      requires Separated(before, from) || start + |kinds| <= |before|
      requires start < |before|
      ensures !EmptyRound(log, start)
    {
      if start + |kinds| <= |before| {
        NamesOfPrefix(before, log, start, |kinds|);
        assert !EmptyRound(before, start);
        assert forall k: nat :: k < |kinds| && ListedAt(log, start, k) ==> ListedAt(before, start, k);
      } else if Listed(log, start, |kinds|) {
        NotAcross(start, |kinds|, |before| - 1);
      }
    }

    /** A round of listings holds no delete. */
    lemma NotAcross(start: nat, n: nat, k: nat)
      requires Listed(log, start, n) && start <= k < start + n
      ensures !log[k].request.Remove?
    {
      assert ListedAt(log, start, k - start);
    }

    lemma RoundNotEmpty(before: seq<Moment>, from: nat)
      requires before <= log && from <= |before| && NoEmptyRound(before, from) && Separated(before, from) && kinds != []
      requires |log| == |before| + |kinds| && NamesOf(log, |before|, |kinds|) != {}
      ensures NoEmptyRound(log, from)
    {
      forall start: nat | from <= start ensures !EmptyRound(log, start) {
        if start < |before| {
          OldRound(before, from, start);
        }
      }
    }

    lemma RoundCutShort(before: seq<Moment>, from: nat)
      requires before <= log && from <= |before| && NoEmptyRound(before, from) && Separated(before, from) && kinds != []
      requires |before| < |log| <= |before| + |kinds| && !TurnAt(|log| - 1).answered
      ensures NoEmptyRound(log, from)
    {
      forall start: nat | from <= start ensures !EmptyRound(log, start) {
        if start < |before| {
          OldRound(before, from, start);
        } else if start + |kinds| <= |log| {
          assert !ListedAt(log, start, |kinds| - 1);
        }
      }
    }

    lemma RoundsSeparated(before: seq<Moment>, from: nat)
      requires before <= log && from <= |before| < |log| && NoEmptyRound(before, from) && kinds != []
      requires forall k :: |before| <= k < |log| ==> log[k].request.Remove?
      ensures NoEmptyRound(log, from) && Separated(log, from)
    {
      forall start: nat | from <= start ensures !EmptyRound(log, start) {
        if start + |kinds| <= |before| {
          OldRound(before, from, start);
        } else if Listed(log, start, |kinds|) {
          NotAcross(start, |kinds|, start + (|kinds| - 1));
        }
      }
    }

    lemma StillRequested(before: seq<Moment>, from: nat, seen: seq<Identity>, observed: seq<Identity>)
      requires before <= log && Requested(before, from, seen) && NoRemoval(log, |before|) && seen <= observed
      ensures Requested(log, from, observed)
    {
      hide Removal;
      forall k | from <= k < |log| && log[k].request.Remove?
        ensures exists i :: i in observed && log[k].request == Removal(i)
      {
        assert k < |before| && log[k] == before[k];
        var i :| i in seen && before[k].request == Removal(i);
        assert i in observed;
      }
    }

    lemma RequestedMore(before: seq<Moment>, from: nat, observed: seq<Identity>, found: seq<Identity>)
      requires before <= log && Requested(before, from, observed) && |log| <= |before| + |found|
      requires forall i :: i in found ==> i in observed
      requires forall k :: |before| <= k < |log| ==> log[k].request == Removal(found[k - |before|])
      ensures Requested(log, from, observed)
    {
      hide Removal;
      forall k | from <= k < |log| && log[k].request.Remove?
        ensures exists i :: i in observed && log[k].request == Removal(i)
      {
        if k < |before| {
          assert log[k] == before[k];
        } else {
          assert found[k - |before|] in observed;
        }
      }
    }

    /** Rounds of listings and deletes, until a round is empty or a request is not answered. */
    method Search() returns (emptied: bool, observed: seq<Identity>, remaining: Option<seq<Identity>>)
      requires Valid() && kinds != []
      modifies this`turn, this`world, this`log
      ensures Valid() && Later(old(world), world) && old(log) <= log
      ensures Requested(log, |old(log)|, observed)
      ensures emptied ==> |log| >= |old(log)| + |kinds| && EmptyRound(log, |log| - |kinds|) && remaining == Some([])
      ensures !emptied ==> NoEmptyRound(log, |old(log)|) && |log| > |old(log)| && !TurnAt(|log| - 1).answered
    {
      LaterIsReflexive(world);
      hide Later, Valid, SightedIn, NoEmptyRound, Listed, NamesOf, NoRemoval, Removal, Separated, Requested, Elements;
      observed, remaining := [], None;
      NoRoundYet();
      while true
        invariant Valid() && Later(old(world), world) && old(log) <= log
        invariant NoEmptyRound(log, |old(log)|) && Separated(log, |old(log)|) && Requested(log, |old(log)|, observed)
        decreases |schedule| - |log|
      {
        ghost var w, h, seen := world, log, observed;
        var listed, found;
        listed, observed, found := List(observed);
        LaterIsTransitive(old(world), w, world);
        StillRequested(h, |old(log)|, seen, observed);
        if !listed {
          RoundCutShort(h, |old(log)|);
          return false, observed, remaining;
        }
        remaining := Some(found);
        if found == [] {
          NothingIdentified();
          return true, observed, remaining;
        }
        SomethingNamed(found);
        RoundNotEmpty(h, |old(log)|);
        InBoth(found, observed, seen);
        w, h := world, log;
        var answered := Delete(found);
        LaterIsTransitive(old(world), w, world);
        RoundsSeparated(h, |old(log)|);
        RequestedMore(h, |old(log)|, observed, found);
        if !answered {
          return false, observed, remaining;
        }
      }
    }

    lemma SomethingNamed(found: seq<Identity>)
      requires found != []
      ensures Elements(found) != {}
    {
      assert found[0] in Elements(found);
    }

    lemma InBoth(found: seq<Identity>, observed: seq<Identity>, before: seq<Identity>)
      requires Elements(observed) == Elements(before) + Elements(found)
      ensures forall i :: i in found ==> i in observed
    {
      assert forall i :: i in found ==> i in Elements(observed);
    }

    /** The census.  It returns exactly when one round of listings, of every kind, was empty; it gives
        up only when a request is not answered. */
    method Cleanup(seconds: real) returns (outcome: Outcome)
      requires Valid()
      modifies this
      ensures Valid() && Later(old(world), world) && old(log) <= log
      ensures outcome != Rejected <==>
        && 0.0 < seconds <= 120.0 && kinds != [] && (forall l | l in selector :: l != "" && selector[l] != "")
        && ("art.openpipe/build-run" in selector || "art.openpipe/prewarm-run" in selector
            || "art.openpipe/image-run" in selector)
      ensures outcome == Rejected ==> receipt == old(receipt) && log == old(log)
      ensures outcome != Rejected ==> receipt.Some? && (receipt.value.absent <==> outcome == Returned)
      ensures outcome != Rejected ==> (receipt.value.failed <==> outcome == Raised)
      ensures outcome != Rejected ==> Requested(log, |old(log)|, receipt.value.observed)
      ensures outcome == Returned ==> |log| >= |old(log)| + |kinds| && EmptyRound(log, |log| - |kinds|)
      ensures outcome == Returned ==> receipt.value.remaining == Some([])
      ensures outcome == Raised ==> NoEmptyRound(log, |old(log)|) && |log| > |old(log)| && !TurnAt(|log| - 1).answered
    {
      LaterIsReflexive(world);
      AcceptableIs(selector, kinds, seconds);
      if !Acceptable(selector, kinds, seconds) {
        return Rejected;
      }
      hide Later, Valid, EmptyRound, NoEmptyRound, Requested, TurnAt;
      var emptied, observed, remaining := Search();
      outcome := if emptied then Returned else Raised;
      receipt := Some(Receipt(emptied, observed, remaining, !emptied));
    }
  }
}
