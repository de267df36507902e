/** One CI attempt's reconciliation of the Pods and Services that carry its nonce label.
    Every API call and every receipt write is one turn: before it takes effect the rest
    of the world acts, and the worker may be dead by then. */
module Reconcile {
  import opened Kubernetes
  import opened Wrappers

  const LABEL := "art-ci-execution"
  const CLOUD := "skypilot-cluster-name"

  datatype Outcome = Returned | Raised

  /** One turn: what the rest of the world does first, whether the worker is still alive
      and its request is answered, whether an unanswered one is carried out all the same,
      whether a granted delete is graceful, and whether the last process of the API server's
      cgroup is gone. */
  datatype Turn = Turn(actions: seq<Action>, answered: bool, reached: bool, graceful: bool, emptied: bool)

  /** What a turn is spent on. */
  datatype Request =
    | Check
    | Work
    | Store(delete: bool)
    | List(kind: Kind)
    | Read(key: Key)
    | Remove(key: Key, uid: nat, version: nat)

  /** The state that a request met: the cluster, the creators' cgroup and the receipts. */
  datatype Moment = Moment(at: World, populated: bool, retired: bool, removal: Option<Receipt>, request: Request)

  datatype Allocation = Allocation(attempt: string, nonce: string, namespace: string)

  datatype Identity = Identity(kind: Kind, name: string, uid: nat, cloud: Option<string>)

  datatype Found = Found(identity: Identity, version: Option<nat>)

  datatype Receipt = Receipt(allocation: Allocation, observed: seq<Identity>,
                             remaining: Option<seq<Found>>, absent: bool)

  function Identify(o: Object): Identity {
    Identity(o.key.kind, o.key.name, o.uid, if CLOUD in o.labels then Some(o.labels[CLOUD]) else None)
  }

  function KeyOf(i: Identity, namespace: string): Key {
    Key(i.kind, namespace, i.name)
  }

  function Selector(allocation: Allocation): Labels {
    map[LABEL := allocation.nonce]
  }

  predicate Names(observed: seq<Identity>, uid: nat) {
    exists i :: 0 <= i < |observed| && observed[i].uid == uid
  }

  datatype Operation = Down | CancelRequest | CancelJob | StopApi | RemoveResources

  datatype Absence = UnknownAbsence | Absent

  /** How one operation of a cleanup ended. */
  datatype Ending = Ending(operation: Operation, success: bool)

  datatype Report = Report(operationsSucceeded: bool, absence: Absence, quiescent: bool, endings: seq<Ending>)

  /** The other files of the attempt that decide which operations cleanup tries. */
  datatype Files = Files(planned: bool, attempted: bool, finished: bool, requested: bool,
                         launched: bool, located: bool)

  /** The operations in their order; the API server is always stopped before resources are removed. */
  function Operations(files: Files, retired: bool): (operations: seq<Operation>)
    ensures StopApi in operations
    ensures files.located ==> |operations| >= 2 && operations[|operations| - 1] == RemoveResources
                                && operations[|operations| - 2] == StopApi
    ensures forall k :: 0 <= k < |operations| - 1 ==> operations[k] != RemoveResources
    ensures Down in operations <==> !retired && files.finished
    ensures CancelRequest in operations <==> !retired && !files.finished && files.requested
    ensures CancelJob in operations <==> !retired && !files.finished && !files.requested && files.launched
    ensures RemoveResources in operations <==> files.located
    ensures operations[if retired || !(files.finished || files.requested || files.launched) then 0 else 1] == StopApi
  {
    (if retired then []
     else if files.finished then [Down]
     else if files.requested then [CancelRequest]
     else if files.launched then [CancelJob]
     else [])
    + [StopApi] + (if files.located then [RemoveResources] else [])
  }

  class Attempt {
    const allocation: Allocation
    const schedule: seq<Turn>
    const first: World
    const crowded: bool
    var turn: nat
    var world: World
    var census: Option<Receipt>
    var removal: Option<Receipt>
    /** Whether the cgroup of the resource creators holds a process, and its retirement receipt. */
    var populated: bool
    var retired: bool
    var report: Option<Report>
    /** The moment of every turn so far, and how every operation so far ended. */
    ghost var log: seq<Moment>
    ghost var endings: seq<Ending>

    /** A new attempt; receipts of other attempts may be in the way. */
    constructor (allocation: Allocation, schedule: seq<Turn>, world: World, populated: bool, census: Option<Receipt>,
                 removal: Option<Receipt>)
      requires Kubernetes.Valid(world)
      requires forall receipt <- [census, removal] :: receipt.Some? ==> receipt.value.allocation != allocation
      ensures Valid() && log == [] && endings == [] && !retired && report.None?
      ensures this.allocation == allocation && this.schedule == schedule && this.world == world
      ensures this.populated == populated && this.census == census && this.removal == removal
    {
      this.allocation, this.schedule, first, crowded := allocation, schedule, world, populated;
      this.world, this.populated, this.census, this.removal := world, populated, census, removal;
      turn, retired, report, log, endings := 0, false, None, [], [];
      new;
      assert census in [census, removal] && removal in [census, removal];
    }

    /** The receipts on disk tell the truth in every state, whoever acts between our steps, and
        everything that ever happened is explained. */
    ghost predicate Valid()
      reads this`world, this`turn, this`census, this`removal, this`retired, this`populated, this`log
    {
      && Kubernetes.Valid(world)
      && Truthful(census) && Truthful(removal)
      && (retired ==> !populated)
      && Accounted()
    }

    /** The log leads from the first state to the present one, one scheduled turn after the other:
        the cluster changes by what others do and by granted deletes only. */
    ghost predicate Accounted()
      reads this`world, this`turn, this`retired, this`populated, this`log
    {
      Leads(log, turn, world, populated, retired)
    }

    /** When the schedule is over the program is dead: nothing reaches the cluster any more. */
    function TurnAt(i: nat): Turn {
      if i < |schedule| then schedule[i] else Turn([], false, false, false, false)
    }

    ghost predicate Leads(log: seq<Moment>, turn: nat, world: World, populated: bool, retired: bool) {
      && turn == |log|
      && (forall i :: 0 <= i < |log| ==> Explained(log, i))
      && world == After(log, turn) && populated == Crowded(log, turn)
      && (turn > 0 && log[turn - 1].retired ==> retired)
    }

    /** The cluster as the first `n` turns leave it. */
    ghost function After(log: seq<Moment>, n: nat): World
      requires n <= |log|
    {
      if n == 0 then first else Carried(log[n - 1].at, log[n - 1].request, TurnAt(n - 1))
    }

    /** A delete is carried out in the turn in which it is sent; nothing else changes the cluster. */
    function Carried(met: World, request: Request, t: Turn): World {
      if request.Remove? && (t.answered || t.reached)
      then AfterDelete(met, request.key, request.uid, request.version, t.graceful)
      else met
    }

    ghost function Crowded(log: seq<Moment>, n: nat): bool
      requires n <= |log|
    {
      if n == 0 then crowded else log[n - 1].populated
    }

    /** What a turn met is what the turns before it left and others then did; a cgroup once empty
        stays empty; the retirement receipt stays; and what a delete removes is our own. */
    ghost predicate Explained(log: seq<Moment>, i: nat)
      requires i < |log|
    {
      var m, t := log[i], TurnAt(i);
      && m.at == Run(After(log, i), t.actions)
      && m.populated == (Crowded(log, i) && !t.emptied)
      && (m.retired ==> !m.populated) && (i > 0 && log[i - 1].retired ==> m.retired)
      && (m.request.Remove? && Reply(m.at, m.request.key, m.request.uid, m.request.version) == Deleted ==>
            Owned(m.at.objects[m.request.key], m.removal))
    }

    ghost predicate Truthful(receipt: Option<Receipt>)
      reads this`world
    {
      TrueOf(world, receipt)
    }

    ghost predicate TrueOf(w: World, receipt: Option<Receipt>) {
      receipt.Some? && receipt.value.allocation == allocation ==>
        && (forall i <- receipt.value.observed :: Pinned(w, i.uid, KeyOf(i, allocation.namespace)))
        && (receipt.value.absent ==> forall i <- receipt.value.observed :: Gone(w, i.uid))
    }

    lemma StaysTrue(w: World, v: World, receipt: Option<Receipt>)
      requires Later(w, v) && TrueOf(w, receipt)
      ensures TrueOf(v, receipt)
    {
      LaterPreserves(w, v);
      hide Later, Pinned, Gone;
    }

    /** Every identity can only be the object it names. */
    ghost predicate Recorded(observed: seq<Identity>)
      reads this`world
    {
      forall i <- observed :: Pinned(world, i.uid, KeyOf(i, allocation.namespace))
    }

    ghost predicate AllGone(observed: seq<Identity>)
      reads this`world
    {
      forall i <- observed :: Gone(world, i.uid)
    }

    /** The object carries the label, with this attempt's nonce. */
    ghost predicate Marked(o: Object) {
      "art-ci-execution" in o.labels && o.labels["art-ci-execution"] == allocation.nonce
    }

    lemma SelectedIsMarked(o: Object)
      ensures Selects(Selector(allocation), o.labels) <==> Marked(o)
    {
    }

    /** The object carries the nonce label and its identifier is in the receipt on disk. */
    ghost predicate Owned(victim: Object, receipt: Option<Receipt>) {
      && Marked(victim)
      && victim.key.namespace == allocation.namespace
      && receipt.Some? && receipt.value.allocation == allocation && Names(receipt.value.observed, victim.uid)
    }

    /** A delete is sent only for a receipted identifier at a version that carried the nonce label. */
    ghost predicate Removable(r: Request)
      reads this`world, this`removal
    {
      && r.Remove? && r.key.namespace == allocation.namespace
      && removal.Some? && removal.value.allocation == allocation && Names(removal.value.observed, r.uid)
      && Settled(world, r.uid, r.version, Selector(allocation))
    }

    ghost function Target(delete: bool): Option<Receipt>
      reads this`census, this`removal
    {
      if delete then removal else census
    }

    /** This attempt's receipt, without a claim of absence. */
    ghost predicate Open(receipt: Option<Receipt>) {
      receipt.Some? && receipt.value.allocation == allocation && !receipt.value.absent
    }

    predicate Foreign(receipt: Option<Receipt>) {
      receipt.Some? && receipt.value.allocation != allocation
    }

    /** The identities that the receipts on disk hold. */
    ghost function Receipted(): set<Identity>
      reads this`census, this`removal
    {
      set i | i in Observed(census) + Observed(removal)
    }

    /** A found object, if it is unchanged, carries the nonce label. */
    ghost predicate Sighted(found: seq<Found>, observed: seq<Identity>)
      reads this`world
    {
      forall i :: 0 <= i < |found| ==>
        && found[i].identity in observed
        && (found[i].version.Some? ==>
              Settled(world, found[i].identity.uid, found[i].version.value, Selector(allocation)))
    }

    /** The rest of the world acts, and by then the worker may be dead.  A delete that is not
        answered may be carried out or not. */
    method Step(request: Request) returns (answered: bool)
      requires Valid() && (request.Remove? ==> Removable(request))
      modifies this`turn, this`world, this`populated, this`log
      ensures Valid() && Later(old(world), world) && (populated ==> old(populated))
      ensures old(log) <= log && |log| == |old(log)| + 1 == turn && answered == TurnAt(|old(log)|).answered
      ensures answered ==> turn <= |schedule|
      ensures var m := log[|old(log)|];
        && m == Moment(m.at, populated, retired, removal, request)
        && Later(old(world), m.at) && Later(m.at, world) && (!request.Remove? ==> m.at == world)
    {
      var t := TurnAt(turn);
      var met := Run(world, t.actions);
      ghost var m := Moment(met, populated && !t.emptied, retired, removal, request);
      assert turn == |log|;
      hide Leads, Carried, Run, Later, TrueOf, Kubernetes.Valid, Removable;
      NextTurn(m);
      var next := Carried(met, request, t);
      StaysTrue(world, next, census);
      StaysTrue(world, next, removal);
      log, populated, world, turn := log + [m], populated && !t.emptied, next, turn + 1;
      answered := t.answered;
    }

    /** One more turn is explained, whatever the request meets. */
    lemma NextTurn(m: Moment)
      requires Valid() && (m.request.Remove? ==> Removable(m.request))
      requires m ==
        Moment(Run(world, TurnAt(turn).actions), populated && !TurnAt(turn).emptied, retired, removal, m.request)
      ensures var next := Carried(m.at, m.request, TurnAt(turn));
        && Leads(log + [m], turn + 1, next, m.populated, retired) && Kubernetes.Valid(next)
        && Later(world, m.at) && Later(m.at, next) && Later(world, next)
        && (!m.request.Remove? ==> next == m.at)
    {
      var t := TurnAt(turn);
      RunIsLater(world, t.actions);
      LaterIsReflexive(m.at);
      if m.request.Remove? {
        DeleteIsLater(m.at, m.request.key, m.request.uid, m.request.version, t.graceful);
        OwnIsRemoved(m);
      }
      LaterIsTransitive(world, m.at, Carried(m.at, m.request, t));
      LogGrows(m);
      hide *;
    }

    lemma LogGrows(m: Moment)
      requires Accounted() && (retired ==> !populated)
      requires m ==
        Moment(Run(world, TurnAt(turn).actions), populated && !TurnAt(turn).emptied, retired, removal, m.request)
      requires m.request.Remove? && Reply(m.at, m.request.key, m.request.uid, m.request.version) == Deleted ==>
        Owned(m.at.objects[m.request.key], m.removal)
      ensures Leads(log + [m], turn + 1, Carried(m.at, m.request, TurnAt(turn)), m.populated, retired)
    {
      hide Run, Owned, Carried, Reply;
      var more := log + [m];
      forall i | 0 <= i < turn ensures Explained(more, i) {
        assert Explained(log, i);
        assert more[i] == log[i] && (i > 0 ==> more[i - 1] == log[i - 1]);
      }
      assert turn > 0 ==> more[turn - 1] == log[turn - 1];
      assert Explained(more, turn);
      hide Explained;
    }

    lemma OwnIsRemoved(m: Moment)
      requires Kubernetes.Valid(world) && Removable(m.request) && m.removal == removal && Later(world, m.at) &&
        Kubernetes.Valid(m.at)
      ensures Reply(m.at, m.request.key, m.request.uid, m.request.version) == Deleted ==>
        Owned(m.at.objects[m.request.key], m.removal)
    {
      LaterPreserves(world, m.at);
      if Reply(m.at, m.request.key, m.request.uid, m.request.version) == Deleted {
        GrantedDeleteIsSelected(m.at, m.request.key, m.request.uid, m.request.version, Selector(allocation));
        SelectedIsMarked(m.at.objects[m.request.key]);
      }
    }

    /** Each turn first goes as scheduled, and a delete that is answered and names the object that it meets is
        carried out. */
    lemma TurnsAreScheduled(i: nat)
      requires Valid() && i < turn && i < |schedule|
      ensures log[i].at == Run(After(log, i), schedule[i].actions)
      ensures var m := log[i];
        m.request.Remove? && schedule[i].answered && m.request.key in m.at.objects
        && m.at.objects[m.request.key].uid == m.request.uid
        && m.at.objects[m.request.key].version == m.request.version ==>
          var v := After(log, i + 1).objects;
          if schedule[i].graceful
          then m.request.key in v && v[m.request.key].version == m.at.nextVersion
          else m.request.key !in v
    {
      assert Explained(log, i);
    }

    /** In every turn so far: whatever object of the cluster our request changed carried the nonce
        label at that instant, and its identifier was in the receipt on disk.  A delete that is
        answered with not found or conflict changes nothing. */
    lemma OnlyOwnedIsTouched(i: nat, key: Key)
      requires Valid() && i < turn && key in log[i].at.objects
      requires key !in After(log, i + 1).objects || After(log, i + 1).objects[key] != log[i].at.objects[key]
      ensures log[i].request.Remove? && log[i].request.key == key && Owned(log[i].at.objects[key], log[i].removal)
      ensures var victim := log[i].at.objects[key];
        && "art-ci-execution" in victim.labels && victim.labels["art-ci-execution"] == allocation.nonce
        && victim.key.namespace == allocation.namespace
        && victim.uid == log[i].request.uid && victim.version == log[i].request.version
      ensures log[i].removal.Some? && log[i].removal.value.allocation == allocation
      ensures exists identity <- log[i].removal.value.observed :: identity.uid == log[i].at.objects[key].uid
      ensures Reply(log[i].at, key, log[i].request.uid, log[i].request.version) == Deleted
    {
      assert Explained(log, i);
    }

    /** Nothing of ours appears in the cluster by a request. */
    lemma NothingIsCreated(i: nat, key: Key)
      requires Valid() && i < turn && key !in log[i].at.objects
      ensures key !in After(log, i + 1).objects
    {
    }

    /** From some turn on the retirement receipt was as given, and the cgroup was populated only if
        it was to begin with. */
    ghost predicate Steady(log: seq<Moment>, start: nat, retired: bool, populated: bool) {
      forall k :: start <= k < |log| ==> log[k].retired == retired && (log[k].populated ==> populated)
    }

    lemma StaysSteady(before: seq<Moment>, log: seq<Moment>, start: nat, r: bool, p: bool, q: bool)
      requires before <= log && Steady(before, start, r, p) && Steady(log, |before|, r, q) && (q ==> p)
      ensures Steady(log, start, r, p)
    {
      forall k | start <= k < |log| ensures log[k].retired == r && (log[k].populated ==> p) {
        if k < |before| {
          assert log[k] == before[k];
        }
      }
    }

    /** Replace one receipt; a worker that is dead by then leaves the file as it was. */
    method Write(delete: bool, receipt: Receipt) returns (written: bool)
      requires Valid() && receipt.allocation == allocation && Recorded(receipt.observed)
      requires receipt.absent ==> AllGone(receipt.observed)
      modifies this`turn, this`world, this`populated, this`log, this`census, this`removal
      ensures Valid() && Later(old(world), world) && Passed(old(log), old(populated)) && NoRemoval(log, |old(log)|)
      ensures Target(delete) == (if written then Some(receipt) else old(Target(delete)))
      ensures Target(!delete) == old(Target(!delete))
      ensures Recorded(receipt.observed)
      ensures written || Unanswered()
    {
      written := Step(Store(delete));
      LaterPreserves(old(world), world);
      if written {
        if delete {
          removal := Some(receipt);
        } else {
          census := Some(receipt);
        }
      }
    }

    /** No delete was sent from some turn on. */
    ghost predicate NoRemoval(log: seq<Moment>, start: nat) {
      forall k :: start <= k < |log| ==> !log[k].request.Remove?
    }

    /** The identities of both earlier receipts, each once. */
    method LoadRetained() returns (outcome: Outcome, retained: seq<Identity>)
      requires Valid()
      ensures outcome == Returned <==>
        (census.Some? ==> census.value.allocation == allocation)
        && (removal.Some? ==> removal.value.allocation == allocation)
      ensures outcome == Returned ==> Recorded(retained)
      ensures outcome == Returned ==> forall i :: i in retained <==> i in Receipted()
    {
      retained := [];
      if Foreign(census) || Foreign(removal) {
        return Raised, retained;
      }
      if census.Some? {
        retained := AppendNew(retained, census.value.observed);
      }
      if removal.Some? {
        retained := AppendNew(retained, removal.value.observed);
      }
      outcome := Returned;
    }

    /** Since then only turns have passed: the log has grown, and the retirement receipt stands as
        it stood. */
    ghost predicate Passed(before: seq<Moment>, wasPopulated: bool)
      reads this`log, this`retired, this`populated
    {
      PassedBy(before, wasPopulated, log, retired, populated)
    }

    ghost predicate PassedBy(before: seq<Moment>, wasPopulated: bool, log: seq<Moment>, retired: bool,
                             populated: bool) {
      before <= log && Steady(log, |before|, retired, wasPopulated) && (populated ==> wasPopulated)
    }

    lemma Chain(earlier: seq<Moment>, p: bool, between: seq<Moment>, q: bool)
      requires PassedBy(earlier, p, between, retired, q) && Passed(between, q)
      ensures Passed(earlier, p) && earlier <= between <= log
      ensures NoRemoval(between, |earlier|) && NoRemoval(log, |between|) ==> NoRemoval(log, |earlier|)
    {
      StaysSteady(between, log, |earlier|, retired, p, q);
      if NoRemoval(between, |earlier|) && NoRemoval(log, |between|) {
        forall k | |earlier| <= k < |log| ensures !log[k].request.Remove? {
          assert k < |between| ==> log[k] == between[k];
        }
      }
    }

    lemma NothingPassed()
      ensures Passed(log, populated) && NoRemoval(log, |log|)
    {
    }

    /** What a receipt of this attempt holds is recorded. */
    lemma ReceiptIsRecorded(delete: bool)
      requires Valid() && Target(delete).Some? && Target(delete).value.allocation == allocation
      ensures Recorded(Target(delete).value.observed)
    {
    }

    /** Receipts one identity, unless it is receipted already. */
    method Retain(identity: Identity, delete: bool, before: seq<Identity>, remaining: Option<seq<Found>>)
        returns (written: bool, retained: seq<Identity>)
      requires Valid() && Recorded(before) && Pinned(world, identity.uid, KeyOf(identity, allocation.namespace))
      requires Target(delete) == Some(Receipt(allocation, before, remaining, false))
      modifies this`turn, this`world, this`populated, this`log, this`census, this`removal
      ensures Valid() && Later(old(world), world) && Passed(old(log), old(populated)) && NoRemoval(log, |old(log)|)
      ensures before <= retained && Recorded(retained) && identity in retained
      ensures Target(!delete) == old(Target(!delete))
      ensures Target(delete) == Some(Receipt(allocation, if written then retained else before, remaining, false))
      ensures written || Unanswered()
    {
      LaterIsReflexive(world);
      hide Later, Gone, Pinned, Settled, Kubernetes.Valid, Valid;
      retained := before;
      if identity in before {
        NothingPassed();
        return true, retained;
      }
      retained := before + [identity];
      written := Write(delete, Receipt(allocation, retained, remaining, false));
      LaterPreserves(old(world), world);
    }

    /** Only this object can have its identifier, and at its version it carries the nonce label. */
    ghost predicate Seen(w: World, o: Object) {
      && o.key.namespace == allocation.namespace
      && Pinned(w, o.uid, o.key) && Settled(w, o.uid, o.version, Selector(allocation))
    }

    lemma StaysSeen(w: World, v: World)
      requires Later(w, v)
      ensures forall o :: Seen(w, o) ==> Seen(v, o)
    {
      LaterPreserves(w, v);
      hide Later, Pinned, Settled;
    }

    lemma ListedIsSeen(kind: Kind)
      requires Valid()
      ensures forall o :: o in Labelled(world, kind) ==> Seen(world, o)
    {
      ListedIsKnown(world, kind, allocation.namespace, Selector(allocation));
      ListingIsLabelled(world, kind);
      hide Valid, Listing, Pinned, Settled, Labelled;
    }

    function FoundOf(o: Object, delete: bool): Found {
      Found(Identify(o), if delete then Some(o.version) else None)
    }

    /** Receipts one listed object and adds it to what was found. */
    method Take(o: Object, delete: bool, before: seq<Identity>, already: seq<Found>, remaining: Option<seq<Found>>)
        returns (written: bool, retained: seq<Identity>, found: seq<Found>)
      requires Valid() && Recorded(before) && Sighted(already, before) && Seen(world, o)
      requires Target(delete) == Some(Receipt(allocation, before, remaining, false))
      modifies this`turn, this`world, this`populated, this`log, this`census, this`removal
      ensures Valid() && Later(old(world), world) && Passed(old(log), old(populated)) && NoRemoval(log, |old(log)|)
      ensures before <= retained && Recorded(retained) && Sighted(found, retained)
      ensures found == already + [FoundOf(o, delete)]
      ensures Target(!delete) == old(Target(!delete))
      ensures Target(delete) == Some(Receipt(allocation, if written then retained else before, remaining, false))
      ensures written || Unanswered()
    {
      assert KeyOf(Identify(o), allocation.namespace) == o.key;
      hide Later, Gone, Pinned, Settled, Kubernetes.Valid, Valid, PassedBy, NoRemoval;
      ghost var w := world;
      written, retained := Retain(Identify(o), delete, before, remaining);
      LaterPreserves(w, world);
      found := already + [FoundOf(o, delete)];
    }

    /** The labelled listing of one kind, as the cluster stood in turn `at`.
        Every new identifier is receipted before the next request. */
    method ListKind(kind: Kind, delete: bool, before: seq<Identity>, remaining: Option<seq<Found>>)
        returns (outcome: Outcome, retained: seq<Identity>, found: seq<Found>, ghost at: nat)
      requires Valid() && Recorded(before)
      requires Target(delete) == Some(Receipt(allocation, before, remaining, false))
      modifies this`turn, this`world, this`populated, this`log, this`census, this`removal
      ensures Valid() && Later(old(world), world)
      ensures Passed(old(log), old(populated)) && NoRemoval(log, |old(log)|)
      ensures before <= retained && Recorded(retained)
      ensures Target(!delete) == old(Target(!delete))
      ensures Open(Target(delete)) && before <= Target(delete).value.observed <= retained
      ensures outcome == Returned ==>
        Sighted(found, retained) && (delete ==> forall f :: f in found ==> f.version.Some?)
      ensures outcome == Returned ==> Target(delete) == Some(Receipt(allocation, retained, remaining, false))
      ensures outcome == Returned ==>
        && |old(log)| <= at && Lists(log, at, kind)
        && FoundAre(log[at].at, kind, delete, found) && Identities(found) == IdentifyAll(Labelled(log[at].at, kind))
      ensures outcome == Raised ==> Unanswered()
    {
      hide Later, Seen, Sighted, Recorded, Listing, Valid, PassedBy, NoRemoval, Labelled, AreOf, FoundAre;
      retained, found, at := before, [], turn;
      LogIsTurn();
      var answered := Step(Request.List(kind));
      NothingSighted(before);
      SteadyStep(old(log), old(populated));
      ReceiptIsRecorded(delete);
      if !answered {
        return Raised, retained, found, at;
      }
      var items := Listing(world, kind, allocation.namespace, Selector(allocation));
      ghost var all, met, listed := items, log, world;
      LogIsTurn();
      NoneOf(delete);
      assert all - items == {};
      ListingIsLabelled(world, kind);
      ListedIsSeen(kind);
      while items != {}
        invariant Valid() && Later(old(world), world) && met <= log
        invariant Passed(old(log), old(populated)) && NoRemoval(log, |old(log)|)
        invariant before <= retained && Recorded(retained) && Sighted(found, retained)
        invariant delete ==> forall f :: f in found ==> f.version.Some?
        invariant Target(delete) == Some(Receipt(allocation, retained, remaining, false))
        invariant Target(!delete) == old(Target(!delete))
        invariant forall o :: o in items ==> Seen(world, o)
        invariant items <= all && Identities(found) == IdentifyAll(all - items) && AreOf(found, all - items, delete)
        decreases items
      {
        var o :| o in items;
        ghost var done := all - items;
        items := items - {o};
        assert all - items == done + {o};
        OneMore(found, FoundOf(o, delete), done, o);
        OneMoreOf(found, done, o, delete);
        ghost var earlier, h, q := world, log, populated;
        var written;
        written, retained, found := Take(o, delete, retained, found, remaining);
        StaysSeen(earlier, world);
        LaterIsTransitive(old(world), earlier, world);
        Chain(old(log), old(populated), h, q);
        if !written {
          return Raised, retained, found, at;
        }
      }
      assert all - items == all;
      TheyAreFound(listed, kind, delete, found);
      outcome := Returned;
    }

    lemma NothingSighted(observed: seq<Identity>)
      ensures Sighted([], observed)
    {
    }

    /** The turn of the log in which this kind was listed, and answered. */
    ghost predicate Lists(log: seq<Moment>, at: nat, kind: Kind) {
      at < |log| && log[at].request == Request.List(kind)
    }

    lemma LogIsTurn()
      requires Valid()
      ensures |log| == turn && Kubernetes.Valid(world)
    {
    }

    lemma SteadyStep(before: seq<Moment>, p: bool)
      requires before <= log && |log| <= |before| + 1 && (populated ==> p)
      requires |log| > |before| ==> log[|before|].populated == populated && log[|before|].retired == retired
      ensures Passed(before, p)
      ensures (|log| > |before| ==> !log[|before|].request.Remove?) ==> NoRemoval(log, |before|)
    {
    }

    /** One listing of each kind, one after the other. */
    method List(delete: bool, before: seq<Identity>, remaining: Option<seq<Found>>)
        returns (outcome: Outcome, retained: seq<Identity>, found: seq<Found>, ghost pods: nat, ghost services: nat)
      requires Valid() && Recorded(before)
      requires Target(delete) == Some(Receipt(allocation, before, remaining, false))
      modifies this`turn, this`world, this`populated, this`log, this`census, this`removal
      ensures Valid() && Later(old(world), world)
      ensures Passed(old(log), old(populated)) && NoRemoval(log, |old(log)|)
      ensures before <= retained && Recorded(retained)
      ensures Target(!delete) == old(Target(!delete))
      ensures Open(Target(delete)) && before <= Target(delete).value.observed <= retained
      ensures outcome == Returned ==>
        Sighted(found, retained) && (delete ==> forall f :: f in found ==> f.version.Some?)
      ensures outcome == Returned ==> Target(delete) == Some(Receipt(allocation, retained, remaining, false))
      ensures outcome == Returned ==>
        |old(log)| <= pods < services && Lists(log, pods, Pod) && Lists(log, services, Service) &&
        Identities(found) == IdentifyAll(Labelled(log[pods].at, Pod) + Labelled(log[services].at, Service))
      ensures outcome == Raised ==> Unanswered()
    {
      hide Later, Gone, Pinned, Settled, Kubernetes.Valid, Selects, Listing, Valid, PassedBy, NoRemoval;
      outcome, retained, found, pods := ListKind(Pod, delete, before, remaining);
      services := pods;
      if outcome == Raised {
        return;
      }
      ghost var between, h, q := world, log, populated;
      var more;
      outcome, retained, more, services := ListKind(Service, delete, retained, remaining);
      LaterIsTransitive(old(world), between, world);
      LaterPreserves(between, world);
      Chain(old(log), old(populated), h, q);
      ghost var first := found;
      found := found + more;
      assert forall f :: f in found ==> f in first || f in more;
      assert Identities(found) == Identities(first) + Identities(more);
    }

    /** The objects that carried the nonce label in a given state. */
    ghost function Labelled(w: World, kind: Kind): set<Object> {
      set k | k in w.objects && k.kind == kind && k.namespace == allocation.namespace && Marked(w.objects[k])
        :: w.objects[k]
    }

    /** What a listing with the selector gives. */
    lemma ListingIsLabelled(w: World, kind: Kind)
      ensures Listing(w, kind, allocation.namespace, Selector(allocation)) == Labelled(w, kind)
    {
      forall k | k in w.objects ensures Selects(Selector(allocation), w.objects[k].labels) <==> Marked(w.objects[k]) {
        SelectedIsMarked(w.objects[k]);
      }
      hide Selects, Selector, Marked;
    }

    /** These are the labelled objects of the kind, each by its name and identifier: no other is among them, and
        none is missing. */
    ghost predicate FoundAre(w: World, kind: Kind, delete: bool, found: seq<Found>) {
      && (forall key | key in w.objects && key.kind == kind && key.namespace == allocation.namespace ::
            Marked(w.objects[key]) <==> exists f <- found :: Describes(f, w.objects[key], kind, key.name, delete))
      && forall f <- found ::
           exists key | key in w.objects && key.kind == kind && key.namespace == allocation.namespace ::
             Marked(w.objects[key]) && Describes(f, w.objects[key], kind, key.name, delete)
    }

    ghost predicate Describes(f: Found, o: Object, kind: Kind, name: string, delete: bool) {
      && f.identity.kind == kind && f.identity.name == name && f.identity.uid == o.uid
      && f.identity.cloud ==
           (if "skypilot-cluster-name" in o.labels then Some(o.labels["skypilot-cluster-name"]) else None)
      && f.version == if delete then Some(o.version) else None
    }

    ghost predicate AreOf(found: seq<Found>, objects: set<Object>, delete: bool) {
      && (forall f <- found :: exists o <- objects :: f == FoundOf(o, delete))
      && forall o <- objects :: FoundOf(o, delete) in found
    }

    lemma NoneOf(delete: bool)
      ensures AreOf([], {}, delete)
    {
    }

    lemma OneMoreOf(found: seq<Found>, objects: set<Object>, o: Object, delete: bool)
      requires AreOf(found, objects, delete)
      ensures AreOf(found + [FoundOf(o, delete)], objects + {o}, delete)
    {
      hide FoundOf;
    }

    lemma TheyAreFound(w: World, kind: Kind, delete: bool, found: seq<Found>)
      requires Kubernetes.Valid(w) && AreOf(found, Labelled(w, kind), delete)
      ensures FoundAre(w, kind, delete, found)
    {
      forall key | key in w.objects && key.kind == kind && key.namespace == allocation.namespace
        ensures Marked(w.objects[key]) <==> exists f <- found :: Describes(f, w.objects[key], kind, key.name, delete)
      {
        var o := w.objects[key];
        if Marked(o) {
          assert o in Labelled(w, kind);
          assert FoundOf(o, delete) in found && Describes(FoundOf(o, delete), o, kind, key.name, delete);
        }
        if f :| f in found && Describes(f, o, kind, key.name, delete) {
          var p :| p in Labelled(w, kind) && f == FoundOf(p, delete);
          assert p.uid == o.uid && p.key == key;
        }
      }
      forall f | f in found
        ensures exists key | key in w.objects && key.kind == kind && key.namespace == allocation.namespace ::
          Marked(w.objects[key]) && Describes(f, w.objects[key], kind, key.name, delete)
      {
        var p :| p in Labelled(w, kind) && f == FoundOf(p, delete);
        assert Describes(f, p, kind, p.key.name, delete) && w.objects[p.key] == p;
      }
    }

    /** In this many turns from `start` on the named objects were read, one after the other. */
    ghost predicate Reads(log: seq<Moment>, start: nat, retained: seq<Identity>) {
      && start + |retained| <= |log|
      && forall k :: 0 <= k < |retained| ==> log[start + k].request == Read(KeyOf(retained[k], allocation.namespace))
    }

    /** A retained object was read by name and found. */
    ghost predicate Finds(m: Moment) {
      exists i <- Observed(m.removal) :: FoundBy(m, i)
    }

    ghost predicate FoundBy(m: Moment, i: Identity) {
      var key := KeyOf(i, allocation.namespace);
      m.request == Read(key) && key in m.at.objects && m.at.objects[key].uid == i.uid
    }

    ghost predicate FoundLast()
      reads this`log
    {
      |log| > 0 && Finds(log[|log| - 1])
    }

    /** Reads every retained object by name.  The reads are one after another, but an identifier
        that one of them shows to be gone is still gone after the last. */
    method ProveAbsence(retained: seq<Identity>) returns (outcome: Outcome)
      requires Valid() && Recorded(retained) && Observed(removal) == retained
      modifies this`turn, this`world, this`populated, this`log
      ensures Valid() && Later(old(world), world)
      ensures Passed(old(log), old(populated)) && NoRemoval(log, |old(log)|)
      ensures outcome == Returned ==> AllGone(retained) && Reads(log, |old(log)|, retained)
      ensures outcome == Raised ==> Unanswered() || FoundLast()
      ensures outcome == Raised ==> |log| > |old(log)|
    {
      LaterIsReflexive(world);
      hide Later, Gone, Pinned, Settled, Kubernetes.Valid, Valid;
      for k := 0 to |retained|
        invariant Valid() && Later(old(world), world) && Recorded(retained) && |log| == |old(log)| + k
        invariant Passed(old(log), old(populated)) && NoRemoval(log, |old(log)|)
        invariant Reads(log, |old(log)|, retained[..k])
        invariant forall i :: 0 <= i < k ==> Gone(world, retained[i].uid)
      {
        ghost var previous, h := world, log;
        var key := KeyOf(retained[k], allocation.namespace);
        var answered := Step(Read(key));
        LaterPreserves(previous, world);
        LaterIsTransitive(old(world), previous, world);
        if !answered || (key in world.objects && world.objects[key].uid == retained[k].uid) {
          assert retained[k] in retained && (answered ==> FoundBy(log[|log| - 1], retained[k]));
          return Raised;
        }
        UnreadIsGone(world, retained[k].uid, key);
        assert forall j :: 0 <= j < k ==>
          retained[..k + 1][j] == retained[..k][j] && log[|old(log)| + j] == h[|old(log)| + j];
      }
      assert retained[..|retained|] == retained;
      outcome := Returned;
    }

    /** The request that deletes what was found, at the version that was listed. */
    function Removal(f: Found): Request
      requires f.version.Some?
    {
      Request.Remove(KeyOf(f.identity, allocation.namespace), f.identity.uid, f.version.value)
    }

    /** The last request was not answered, or the program was dead by then. */
    predicate Unanswered()
      reads this`turn
    {
      turn > 0 && !TurnAt(turn - 1).answered
    }

    /** Deletes what was found, each only while it is the version that was listed.  Nothing but
        these deletes is sent. */
    method Delete(found: seq<Found>) returns (outcome: Outcome)
      requires Valid() && removal.Some? && removal.value.allocation == allocation
      requires Sighted(found, removal.value.observed) && forall f :: f in found ==> f.version.Some?
      modifies this`turn, this`world, this`populated, this`log
      ensures Valid() && Later(old(world), world)
      ensures Passed(old(log), old(populated)) && |log| <= |old(log)| + |found|
      ensures forall k :: 0 <= k < |log| - |old(log)| ==> log[|old(log)| + k].request == Removal(found[k])
      ensures if outcome == Returned then |log| == |old(log)| + |found| else Unanswered()
      ensures outcome == Returned && found != [] ==> turn <= |schedule|
    {
      LaterIsReflexive(world);
      hide Later, Gone, Pinned, Settled, Kubernetes.Valid, Selects, Valid;
      for k := 0 to |found|
        invariant Valid() && Later(old(world), world) && |log| == |old(log)| + k
        invariant Passed(old(log), old(populated)) && Sighted(found, removal.value.observed)
        invariant forall j :: 0 <= j < k ==> log[|old(log)| + j].request == Removal(found[j])
        invariant k > 0 ==> turn <= |schedule|
      {
        ghost var previous := world;
        assert found[k] in found && found[k].identity in removal.value.observed;
        var answered := Step(Removal(found[k]));
        LaterPreserves(previous, world);
        LaterIsTransitive(old(world), previous, world);
        if !answered {
          return Raised;
        }
      }
      outcome := Returned;
    }

    /** What one reconciliation has seen: the turns in which Pods and then Services were listed. */
    ghost predicate Surveyed(log: seq<Moment>, start: nat, pods: nat, services: nat, remaining: Option<seq<Found>>) {
      && start <= pods < services && Lists(log, pods, Pod) && Lists(log, services, Service)
      && remaining.Some?
      && Identities(remaining.value) == IdentifyAll(Labelled(log[pods].at, Pod) + Labelled(log[services].at, Service))
    }

    /** One round: a listing, and the receipt of what it found. */
    method Survey(delete: bool, before: seq<Identity>, last: Option<seq<Found>>)
        returns (outcome: Outcome, retained: seq<Identity>, found: seq<Found>, ghost pods: nat, ghost services: nat)
      requires Valid() && Recorded(before)
      requires Target(delete) == Some(Receipt(allocation, before, last, false))
      modifies this`turn, this`world, this`populated, this`log, this`census, this`removal
      ensures Valid() && Later(old(world), world)
      ensures Passed(old(log), old(populated)) && NoRemoval(log, |old(log)|)
      ensures before <= retained && Recorded(retained)
      ensures Target(!delete) == old(Target(!delete))
      ensures Open(Target(delete)) && before <= Target(delete).value.observed
      ensures outcome == Returned ==>
        Sighted(found, retained) && (delete ==> forall f :: f in found ==> f.version.Some?)
      ensures outcome == Returned ==> Target(delete) == Some(Receipt(allocation, retained, Some(found), false))
      ensures outcome == Returned ==> Surveyed(log, |old(log)|, pods, services, Some(found))
      ensures outcome == Raised ==> Unanswered()
    {
      hide Later, Gone, Pinned, Settled, Kubernetes.Valid, Selects, Identities, Listing, Valid, PassedBy, NoRemoval;
      outcome, retained, found, pods, services := List(delete, before, last);
      if outcome == Raised {
        return;
      }
      ghost var w, h, q := world, log, populated;
      var written := Write(delete, Receipt(allocation, retained, Some(found), false));
      LaterPreserves(w, world);
      LaterIsTransitive(old(world), w, world);
      Chain(old(log), old(populated), h, q);
      outcome := if written then Returned else Raised;
    }

    /** Nothing was found: prove absence, and say so if there is something to prove absent. */
    method Conclude(retained: seq<Identity>) returns (outcome: Outcome)
      requires Valid() && Recorded(retained) && removal == Some(Receipt(allocation, retained, Some([]), false))
      modifies this`turn, this`world, this`populated, this`log, this`census, this`removal
      ensures Valid() && Later(old(world), world) && census == old(census)
      ensures Passed(old(log), old(populated)) && NoRemoval(log, |old(log)|)
      ensures removal.Some? && removal.value.observed == retained
      ensures outcome == Returned ==> removal == Some(Receipt(allocation, retained, Some([]), retained != []))
      ensures outcome == Returned ==> AllGone(retained) && Reads(log, |old(log)|, retained)
      ensures outcome == Raised ==> Unanswered() || FoundLast()
    {
      hide Later, Gone, Pinned, Settled, Kubernetes.Valid, Valid, PassedBy, NoRemoval;
      assert Target(true) == removal && Target(false) == census;
      outcome := ProveAbsence(retained);
      ReceiptIsRecorded(true);
      if outcome == Raised || retained == [] {
        return;
      }
      ghost var w, h, q := world, log, populated;
      var written := Write(true, Receipt(allocation, retained, Some([]), true));
      LaterPreserves(w, world);
      LaterIsTransitive(old(world), w, world);
      Chain(old(log), old(populated), h, q);
      assert Target(true) == removal && Target(false) == census;
      outcome := if written then Returned else Raised;
    }

    /** A new receipt that holds everything receipted before. */
    method Begin(delete: bool) returns (outcome: Outcome, retained: seq<Identity>)
      requires Valid()
      modifies this`turn, this`world, this`populated, this`log, this`census, this`removal
      ensures Valid() && Later(old(world), world) && Passed(old(log), old(populated)) && NoRemoval(log, |old(log)|)
      ensures Target(!delete) == old(Target(!delete)) && old(Receipted()) <= Receipted()
      ensures outcome == Returned ==> Recorded(retained) && old(Receipted()) <= (set i | i in retained)
      ensures outcome == Returned ==> Target(delete) == Some(Receipt(allocation, retained, None, false))
      ensures outcome == Raised ==> Unanswered() || old(AnyForeign())
      ensures old(AnyForeign()) ==> outcome == Raised && census == old(census) && removal == old(removal)
    {
      LaterIsReflexive(world);
      NothingPassed();
      hide Later, Gone, Pinned, Settled, Kubernetes.Valid, Valid, PassedBy, NoRemoval, Recorded;
      outcome, retained := LoadRetained();
      if outcome == Raised {
        return;
      }
      var written := Write(delete, Receipt(allocation, retained, None, false));
      outcome := if written then Returned else Raised;
    }

    lemma ReceiptedStill(delete: bool, known: set<Identity>)
      requires Target(delete).Some? && known <= set i | i in Target(delete).value.observed
      ensures known <= Receipted()
    {
    }

    /** List, receipt, delete and prove absence. */
    method Resources(delete: bool) returns (outcome: Outcome, ghost pods: nat, ghost services: nat, ghost proven: nat)
      requires Valid()
      modifies this`turn, this`world, this`populated, this`log, this`census, this`removal
      ensures Valid() && Later(old(world), world)
      ensures Passed(old(log), old(populated)) && (!delete ==> NoRemoval(log, |old(log)|))
      ensures Target(!delete) == old(Target(!delete))
      ensures old(Receipted()) <= Receipted()
      ensures outcome == Returned ==> Target(delete).Some? && Target(delete).value.allocation == allocation
      ensures outcome == Returned ==> forall i :: i in old(Receipted()) ==> i in Target(delete).value.observed
      ensures outcome == Returned ==> Surveyed(log, |old(log)|, pods, services, Target(delete).value.remaining)
      ensures outcome == Returned && delete ==> removal.value.remaining == Some([])
      ensures outcome == Returned && delete ==> AllGone(removal.value.observed)
      ensures outcome == Returned && delete ==> services < proven && Reads(log, proven, removal.value.observed)
      ensures outcome == Returned && delete ==> (removal.value.absent <==> removal.value.observed != [])
      ensures outcome == Raised ==> Unanswered() || old(AnyForeign()) || (delete && FoundLast())
      ensures old(AnyForeign()) ==> outcome == Raised && census == old(census) && removal == old(removal)
    {
      hide Later, Gone, Pinned, Settled, Kubernetes.Valid, Valid, PassedBy, NoRemoval, Recorded, AllGone, Sighted,
        Surveyed, Receipted, AnyForeign, FoundLast, Unanswered, Reads;
      pods, services, proven := 0, 0, 0;
      var retained;
      outcome, retained := Begin(delete);
      if outcome == Raised {
        return;
      }
      var remaining := None;
      while true
        invariant Valid() && Later(old(world), world) && Recorded(retained)
        invariant Passed(old(log), old(populated)) && (!delete ==> NoRemoval(log, |old(log)|))
        invariant Target(delete) == Some(Receipt(allocation, retained, remaining, false))
        invariant Target(!delete) == old(Target(!delete))
        invariant old(Receipted()) <= set i | i in retained
        decreases |schedule| - turn
      {
        LogIsTurn();
        ghost var w0, h0, q0 := world, log, populated;
        var found;
        outcome, retained, found, pods, services := Survey(delete, retained, remaining);
        LaterIsTransitive(old(world), w0, world);
        Chain(old(log), old(populated), h0, q0);
        LogIsTurn();
        ReceiptedStill(delete, old(Receipted()));
        if outcome == Raised || !delete {
          SurveyedSince(|old(log)|, |h0|, pods, services, Target(delete).value.remaining);
          return;
        }
        remaining := Some(found);
        ghost var w1, h1, q1 := world, log, populated;
        assert Target(true) == removal && Target(false) == census;
        if found == [] {
          outcome := Conclude(retained);
          LaterIsTransitive(old(world), w1, world);
          Chain(old(log), old(populated), h1, q1);
          ReceiptedStill(true, old(Receipted()));
          proven := |h1|;
          if outcome == Returned {
            StillSurveyed(h1, |h0|, pods, services, remaining);
            SurveyedSince(|old(log)|, |h0|, pods, services, remaining);
          }
          return;
        }
        outcome := Delete(found);
        ReceiptIsRecorded(true);
        LaterIsTransitive(old(world), w1, world);
        Chain(old(log), old(populated), h1, q1);
        LogIsTurn();
        if outcome == Raised {
          return;
        }
      }
    }

    lemma StillSurveyed(before: seq<Moment>, start: nat, pods: nat, services: nat, found: Option<seq<Found>>)
      requires before <= log && Surveyed(before, start, pods, services, found)
      ensures Surveyed(log, start, pods, services, found) && services < |before|
    {
    }

    lemma SurveyedSince(earlier: nat, start: nat, pods: nat, services: nat, found: Option<seq<Found>>)
      requires earlier <= start
      ensures Surveyed(log, start, pods, services, found) ==> Surveyed(log, earlier, pods, services, found)
    {
    }

    /** Whether the retirement receipt exists and the cgroup is still seen to be empty. */
    method RequireRetired() returns (outcome: Outcome)
      requires Valid()
      modifies this`turn, this`world, this`populated, this`log
      ensures Valid() && Later(old(world), world)
      ensures Passed(old(log), old(populated)) && NoRemoval(log, |old(log)|)
      ensures outcome == Returned ==> retired && !populated && Confirms(log, |old(log)|)
      ensures outcome == Raised ==> Unanswered() || !retired || populated
      ensures |log| == |old(log)| + 1 && log[|old(log)|].request == Check
      ensures outcome == Raised ==> Silent(|old(log)|) || Refuses(log[|old(log)|])
    {
      var answered := Step(Check);
      outcome := if answered && retired && !populated then Returned else Raised;
    }

    /** In this turn the retirement receipt was on file and the cgroup was seen to be empty. */
    ghost predicate Confirms(log: seq<Moment>, at: nat) {
      at < |log| && log[at].request == Check && log[at].retired && !log[at].populated
    }

    /** Stop the API server and write the retirement receipt, once its cgroup is seen to be empty. */
    method StopServer() returns (outcome: Outcome)
      requires Valid()
      modifies this`turn, this`world, this`populated, this`retired, this`log
      ensures Valid() && Later(old(world), world) && (populated ==> old(populated))
      ensures old(log) <= log && NoRemoval(log, |old(log)|)
      ensures outcome == Returned ==> retired && !populated
      ensures outcome == Raised ==> Unanswered() || populated
      ensures old(retired) ==> retired
      ensures outcome == Raised ==> Hindered(StopApi, log, |old(log)|, AnyForeign())
    {
      LaterIsReflexive(world);
      hide Later, Truthful, Owned, Explained;
      if retired {
        outcome := RequireRetired();
        return;
      }
      var answered := Step(Check);
      if !answered || populated {
        return Raised;
      }
      ghost var w := world;
      var alive := Step(Work);
      LaterIsTransitive(old(world), w, world);
      if !alive {
        return Raised;
      }
      retired := true;
      outcome := Returned;
    }

    ghost predicate Silent(i: nat) {
      !TurnAt(i).answered
    }

    /** In this turn a worker did its work. */
    ghost predicate Worked(log: seq<Moment>, i: nat) {
      i < |log| && log[i].request == Work && !Silent(i)
    }

    /** In this turn retirement was checked and the receipt missing, or the cgroup populated. */
    ghost predicate Refuses(m: Moment) {
      m.request == Check && (m.populated || !m.retired)
    }

    /** What since some turn can have made an operation fail: a request that was not answered, a check of
        retirement, a read that found a retained object, or the receipt of another attempt. */
    ghost predicate Hindered(operation: Operation, log: seq<Moment>, start: nat, foreign: bool) {
      || (exists i :: start <= i < |log| && Silent(i))
      || (operation in {StopApi, RemoveResources} && exists i :: start <= i < |log| && Refuses(log[i]))
      || (operation == RemoveResources && (foreign || exists i :: start <= i < |log| && Finds(log[i])))
    }

    predicate AnyForeign()
      reads this`census, this`removal
    {
      || (census.Some? && census.value.allocation != allocation)
      || (removal.Some? && removal.value.allocation != allocation)
    }

    lemma StillHindered(operation: Operation, before: seq<Moment>, log: seq<Moment>, start: nat, earlier: nat,
                        foreign: bool, now: bool)
      requires before <= log && earlier <= start && Hindered(operation, before, start, foreign)
      requires operation == RemoveResources && foreign ==> now
      ensures Hindered(operation, log, earlier, now)
    {
      if i :| start <= i < |before| && Silent(i) {
        assert earlier <= i < |log|;
      } else if i :| start <= i < |before| && Refuses(before[i]) && operation in {StopApi, RemoveResources} {
        assert log[i] == before[i];
      } else if i :| start <= i < |before| && Finds(before[i]) {
        assert log[i] == before[i];
      }
    }

    lemma Hinders(start: nat)
      requires |log| == turn && start < |log|
      requires Unanswered() || AnyForeign() || FoundLast()
      ensures Hindered(RemoveResources, log, start, AnyForeign())
    {
      assert Unanswered() ==> Silent(|log| - 1);
    }

    lemma UnansweredHinders(operation: Operation, start: nat)
      requires |log| == turn && Unanswered() && start < |log|
      ensures Hindered(operation, log, start, AnyForeign())
    {
      assert Silent(|log| - 1);
    }

    /** Every delete from some turn on was sent with the retirement receipt on file and the creators'
        cgroup empty. */
    ghost predicate Guarded(log: seq<Moment>, start: nat) {
      forall k :: start <= k < |log| && log[k].request.Remove? ==> log[k].retired && !log[k].populated
    }

    lemma GuardedOn(before: seq<Moment>, log: seq<Moment>, start: nat)
      requires before <= log && Guarded(before, start) && Guarded(log, |before|)
      ensures Guarded(log, start)
    {
      forall k | start <= k < |log| && log[k].request.Remove? ensures log[k].retired && !log[k].populated {
        assert k < |before| ==> log[k] == before[k];
      }
    }

    /** The removal worker: nothing is listed or deleted before retirement is confirmed. */
    method RemoveAll() returns (outcome: Outcome, ghost at: Instants)
      requires Valid()
      modifies this`turn, this`world, this`populated, this`log, this`census, this`removal
      ensures Valid() && Later(old(world), world) && Passed(old(log), old(populated)) && Guarded(log, |old(log)|)
      ensures old(Receipted()) <= Receipted()
      ensures outcome == Returned ==> Reconciled(|old(log)|, old(Receipted()), at)
      ensures outcome == Raised ==> Unanswered() || !retired || populated || old(AnyForeign()) || FoundLast()
      ensures outcome == Raised ==> Hindered(RemoveResources, log, |old(log)|, AnyForeign())
    {
      hide Later, Kubernetes.Valid, Gone, Valid, Labelled, NoRemoval;
      at := Instants(0, 0, 0, 0);
      outcome := RequireRetired();
      NothingSent(|old(log)|);
      if outcome == Raised {
        return;
      }
      ghost var before, h, q := world, log, populated;
      ghost var pods, services, proven;
      outcome, pods, services, proven := Resources(true);
      Chain(old(log), old(populated), h, q);
      AllGuarded(h, q);
      GuardedOn(h, log, |old(log)|);
      LaterIsTransitive(old(world), before, world);
      LogIsTurn();
      if outcome == Raised {
        Hinders(|old(log)|);
      } else {
        NoneListed([], Labelled(log[pods].at, Pod) + Labelled(log[services].at, Service));
        at := Instants(|old(log)|, pods, services, proven);
      }
    }

    lemma NothingSent(start: nat)
      requires NoRemoval(log, start)
      ensures Guarded(log, start)
    {
    }

    /** With the receipt on file and the cgroup empty to begin with, every delete is guarded. */
    lemma AllGuarded(before: seq<Moment>, q: bool)
      requires Passed(before, q) && retired && !q
      ensures Guarded(log, |before|)
    {
    }

    /** One bounded worker.  It can fail after its work is done, but it cannot succeed without it. */
    method RunWorker(operation: Operation) returns (outcome: Outcome, ghost at: Instants)
      requires Valid()
      modifies this`turn, this`world, this`populated, this`log, this`census, this`removal, this`retired
      ensures Valid() && Later(old(world), world) && (populated ==> old(populated))
      ensures old(log) <= log && Guarded(log, |old(log)|)
      ensures old(Receipted()) <= Receipted()
      ensures old(retired) ==> retired
      ensures outcome == Returned && operation == StopApi ==> retired && !populated
      ensures outcome == Returned && operation == RemoveResources ==> Reconciled(|old(log)|, old(Receipted()), at)
      ensures operation != RemoveResources ==> census == old(census) && removal == old(removal)
      ensures if outcome == Raised then Hindered(operation, log, |old(log)|, AnyForeign())
              else |log| > |old(log)| && Worked(log, |log| - 1)
    {
      LaterIsReflexive(world);
      NothingPassed();
      hide Later, Valid, ReconciledIn, Guarded, Receipted, NoRemoval;
      at := Instants(0, 0, 0, 0);
      outcome := Returned;
      NothingSent(|log|);
      if operation == StopApi {
        outcome := StopServer();
        NothingSent(|old(log)|);
      } else if operation == RemoveResources {
        outcome, at := RemoveAll();
      }
      ghost var w, h, q := world, log, populated;
      var answered := Step(Work);
      LogIsTurn();
      if outcome == Raised {
        StillHindered(operation, h, log, |old(log)|, |old(log)|, AnyForeign(), AnyForeign());
      } else if !answered {
        UnansweredHinders(operation, |old(log)|);
      }
      LaterIsTransitive(old(world), w, world);
      SteadyStep(h, q);
      NothingSent(|h|);
      GuardedOn(h, log, |old(log)|);
      if !answered {
        outcome := Raised;
      } else if outcome == Returned && operation == RemoveResources {
        StaysReconciled(w, h, |old(log)|, old(Receipted()), at);
      }
    }

    /** One cleanup operation, guarded by the retirement checks before a removal and after a stop. */
    method Try(operation: Operation) returns (outcome: Outcome, ghost at: Instants)
      requires Valid()
      modifies this`turn, this`world, this`populated, this`log, this`census, this`removal, this`retired, this`endings
      ensures Valid() && Later(old(world), world) && (populated ==> old(populated))
      ensures old(log) <= log && Guarded(log, |old(log)|)
      ensures old(Receipted()) <= Receipted()
      ensures old(retired) ==> retired
      ensures endings == old(endings) + [Ending(operation, outcome == Returned)]
      ensures outcome == Returned && operation == StopApi ==> retired && !populated
      ensures outcome == Returned && operation == RemoveResources ==> Reconciled(|old(log)|, old(Receipted()), at)
      ensures outcome == Raised ==> Hindered(operation, log, |old(log)|, AnyForeign())
      ensures operation != RemoveResources ==> census == old(census) && removal == old(removal)
      ensures outcome == Returned ==> exists i :: |old(log)| <= i < |log| && Worked(log, i)
    {
      LaterIsReflexive(world);
      hide Later, Reconciled, Valid, Receipted, Kubernetes.Valid;
      at := Instants(0, 0, 0, 0);
      outcome := Returned;
      ghost var worked := 0;
      if operation == RemoveResources {
        outcome := RequireRetired();
      }
      ghost var w1, h1, known := world, log, Receipted();
      if outcome == Returned {
        outcome, at := RunWorker(operation);
        worked := |log| - 1;
        LaterIsTransitive(old(world), w1, world);
        GuardedOn(h1, log, |old(log)|);
      }
      if outcome == Returned && operation == StopApi {
        ghost var w2 := world;
        outcome := RequireRetired();
        LaterIsTransitive(old(world), w2, world);
      }
      if outcome == Returned && operation == RemoveResources {
        Widen(|old(log)|, |h1|, old(Receipted()), known, at);
      }
      endings := endings + [Ending(operation, outcome == Returned)];
      assert outcome == Returned ==> |old(log)| <= worked < |log| && Worked(log, worked);
    }

    /** The always-run workflow step.  It tries every operation in turn, and reports absence exactly
        when the removal of this very call succeeded and had something to prove absent. */
    method Cleanup(files: Files) returns (code: nat, ghost at: Instants)
      requires Valid()
      modifies this
      ensures Valid() && Later(old(world), world)
      ensures old(Receipted()) <= Receipted()
      ensures old(log) <= log && Guarded(log, |old(log)|)
      ensures !files.planned && !files.attempted ==> code == 0 && report == old(report) && log == old(log)
      ensures files.planned || files.attempted ==>
        report.Some? && code == (if report.value.operationsSucceeded then 0 else 105)
      ensures files.planned || files.attempted ==>
        endings == old(endings) + report.value.endings &&
          AllTried(report.value.endings, Operations(files, old(retired)))
      ensures files.planned || files.attempted ==>
        (report.value.operationsSucceeded <==> forall e :: e in report.value.endings ==> e.success)
      ensures files.planned || files.attempted ==>
        (report.value.quiescent <==> Ending(StopApi, true) in report.value.endings)
      ensures files.planned || files.attempted ==>
        (report.value.absence == Absent <==>
           Ending(RemoveResources, true) in report.value.endings && Observed(removal) != [])
      ensures files.planned || files.attempted ==>
        (Ending(RemoveResources, true) in report.value.endings ==> Reconciled(|old(log)|, old(Receipted()), at))
      ensures files.planned || files.attempted ==> (report.value.quiescent ==> retired && !populated)
      ensures files.planned || files.attempted ==>
        HadCause(report.value.endings, log, |old(log)|, AnyForeign())
    {
      LaterIsReflexive(world);
      hide Later, Reconciled, Valid, Guarded, Receipted, Operations, AllTried, Evidence, HadCause;
      NothingPassed();
      NothingSent(|log|);
      at := Instants(0, 0, 0, 0);
      if !files.planned && !files.attempted {
        return 0, at;
      }
      var operations := Operations(files, retired);
      var tried;
      tried, at := TryAll(operations);
      var absence := UnknownAbsence;
      if Ending(RemoveResources, true) in tried {
        EvidenceIsComplete(|old(log)|, old(Receipted()), at);
        if Evidence() {
          absence := Absent;
        }
      }
      var succeeded := forall e :: e in tried ==> e.success;
      report := Some(Report(succeeded, absence, Ending(StopApi, true) in tried, tried));
      code := if succeeded then 0 else 105;
    }

    method TryAll(operations: seq<Operation>) returns (tried: seq<Ending>, ghost at: Instants)
      requires Valid() && forall k :: 0 <= k < |operations| - 1 ==> operations[k] != RemoveResources
      modifies this`turn, this`world, this`populated, this`log, this`census, this`removal, this`retired, this`endings
      ensures Valid() && Later(old(world), world)
      ensures old(Receipted()) <= Receipted()
      ensures old(log) <= log && Guarded(log, |old(log)|)
      ensures endings == old(endings) + tried && AllTried(tried, operations)
      ensures Ending(StopApi, true) in tried ==> retired && !populated
      ensures Ending(RemoveResources, true) in tried ==> Reconciled(|old(log)|, old(Receipted()), at)
      ensures HadCause(tried, log, |old(log)|, AnyForeign())
    {
      LaterIsReflexive(world);
      hide Later, Reconciled, Valid, Guarded, Receipted, Hindered, HadCause;
      NothingPassed();
      NoneHadCause();
      NothingSent(|log|);
      at := Instants(0, 0, 0, 0);
      tried := [];
      for k := 0 to |operations|
        invariant Valid() && Later(old(world), world) && old(log) <= log && Guarded(log, |old(log)|)
        invariant old(Receipted()) <= Receipted()
        invariant endings == old(endings) + tried && AllTried(tried, operations[..k])
        invariant Ending(StopApi, true) in tried ==> retired && !populated
        invariant HadCause(tried, log, |old(log)|, AnyForeign())
        invariant forall j :: 0 <= j < |tried| && k < |operations| ==> tried[j].operation != RemoveResources
        invariant Ending(RemoveResources, true) in tried ==>
                    k == |operations| && Reconciled(|old(log)|, old(Receipted()), at)
      {
        ghost var before, h, known, foreign := world, log, Receipted(), AnyForeign();
        var outcome, instants := Try(operations[k]);
        LaterIsTransitive(old(world), before, world);
        GuardedOn(h, log, |old(log)|);
        if outcome == Returned && operations[k] == RemoveResources {
          at := instants;
          Widen(|old(log)|, |h|, old(Receipted()), known, at);
        }
        TriedOne(tried, operations, k, outcome == Returned);
        CauseOne(h, tried, operations[k], outcome == Returned, |h|, |old(log)|, foreign);
        tried := tried + [Ending(operations[k], outcome == Returned)];
      }
      assert operations[..|operations|] == operations;
    }

    /** Every operation that failed was hindered. */
    ghost predicate HadCause(tried: seq<Ending>, log: seq<Moment>, start: nat, foreign: bool) {
      forall j :: 0 <= j < |tried| && !tried[j].success ==> Hindered(tried[j].operation, log, start, foreign)
    }

    lemma NoneHadCause()
      ensures forall log, start: nat, foreign :: HadCause([], log, start, foreign)
    {
    }

    lemma CauseOne(before: seq<Moment>, tried: seq<Ending>, operation: Operation, success: bool, start: nat,
                   earlier: nat, foreign: bool)
      requires before <= log && earlier <= start && HadCause(tried, before, earlier, foreign)
      requires forall j :: 0 <= j < |tried| ==> tried[j].operation != RemoveResources
      requires success || Hindered(operation, log, start, AnyForeign())
      ensures HadCause(tried + [Ending(operation, success)], log, earlier, AnyForeign())
    {
      hide Hindered;
      var all := tried + [Ending(operation, success)];
      forall j | 0 <= j < |all| && !all[j].success ensures Hindered(all[j].operation, log, earlier, AnyForeign()) {
        if j < |tried| {
          StillHindered(tried[j].operation, before, log, earlier, earlier, foreign, AnyForeign());
        } else {
          StillHindered(operation, log, log, start, earlier, AnyForeign(), AnyForeign());
        }
      }
    }

    /** Every operation was tried, in order. */
    ghost predicate AllTried(tried: seq<Ending>, operations: seq<Operation>) {
      |tried| == |operations| && forall k :: 0 <= k < |tried| ==> tried[k].operation == operations[k]
    }

    lemma TriedOne(tried: seq<Ending>, operations: seq<Operation>, k: nat, success: bool)
      requires k < |operations| && AllTried(tried, operations[..k])
      ensures AllTried(tried + [Ending(operations[k], success)], operations[..k + 1])
    {
    }

    /** The three facts that the removal receipt must state. */
    predicate Evidence()
      reads this`removal
    {
      && removal.Some? && removal.value.allocation == allocation && removal.value.observed != []
      && removal.value.remaining == Some([]) && removal.value.absent
    }

    lemma EvidenceIsComplete(start: nat, known: set<Identity>, at: Instants)
      requires Reconciled(start, known, at)
      ensures Evidence() <==> Observed(removal) != []
      ensures known != {} ==> Observed(removal) != []
    {
      if known != {} {
        var i :| i in known;
        assert i in removal.value.observed;
      }
    }

    lemma Widen(earlier: nat, start: nat, few: set<Identity>, known: set<Identity>, at: Instants)
      requires Reconciled(start, known, at) && earlier <= start && few <= known
      ensures Reconciled(earlier, few, at)
    {
    }

    /** What a successful removal establishes.  In one turn the retirement receipt was on file and
        the creators' cgroup was seen to be empty; in later turns no labelled Pod and then no
        labelled Service was listed; in turns after that every identity receipted until then was
        read by name; and all of them are gone for good. */
    ghost predicate Reconciled(start: nat, known: set<Identity>, at: Instants)
      reads this`world, this`populated, this`removal, this`log
    {
      !populated && ReconciledIn(world, log, removal, start, known, at)
    }

    ghost predicate ReconciledIn(w: World, log: seq<Moment>, removal: Option<Receipt>, start: nat, known: set<Identity>,
                                 at: Instants)
    {
      && start <= at.retired < at.pods < at.services < at.proven && Confirms(log, at.retired)
      && Lists(log, at.pods, Pod) && Labelled(log[at.pods].at, Pod) == {}
      && Lists(log, at.services, Service) && Labelled(log[at.services].at, Service) == {}
      && removal.Some? && removal.value.allocation == allocation && removal.value.remaining == Some([])
      && Reads(log, at.proven, removal.value.observed)
      && (forall i <- removal.value.observed :: Gone(w, i.uid))
      && (removal.value.absent <==> removal.value.observed != [])
      && forall i :: i in known ==> i in removal.value.observed
    }

    /** What was established stays so: later turns can neither undo the log nor bring an identifier back. */
    lemma StaysReconciled(w: World, before: seq<Moment>, start: nat, known: set<Identity>, at: Instants)
      requires Later(w, world) && before <= log && ReconciledIn(w, before, removal, start, known, at)
      ensures ReconciledIn(world, log, removal, start, known, at)
    {
      LaterPreserves(w, world);
      hide Later, Gone, Labelled;
    }
  }

  /** Turns of one removal: creators seen gone, Pods listed, Services listed, the first read by name. */
  datatype Instants = Instants(retired: nat, pods: nat, services: nat, proven: nat)

  ghost function Observed(receipt: Option<Receipt>): seq<Identity> {
    if receipt.Some? then receipt.value.observed else []
  }

  ghost function IdentifyAll(objects: set<Object>): set<Identity> {
    set o | o in objects :: Identify(o)
  }

  lemma NoneListed(found: seq<Found>, objects: set<Object>)
    requires found == [] && Identities(found) == IdentifyAll(objects)
    ensures objects == {}
  {
    assert forall o :: o in objects ==> Identify(o) in IdentifyAll(objects);
  }

  lemma OneMore(found: seq<Found>, f: Found, objects: set<Object>, o: Object)
    requires Identities(found) == IdentifyAll(objects) && f.identity == Identify(o)
    ensures Identities(found + [f]) == IdentifyAll(objects + {o})
  {
    assert Identities(found + [f]) == Identities(found) + {f.identity};
    assert IdentifyAll(objects + {o}) == IdentifyAll(objects) + {Identify(o)};
  }

  ghost function Identities(found: seq<Found>): set<Identity> {
    set f | f in found :: f.identity
  }

  method AppendNew(retained: seq<Identity>, extra: seq<Identity>) returns (all: seq<Identity>)
    ensures retained <= all
    ensures forall i :: i in all <==> i in retained || i in extra
  {
    all := retained;
    for k := 0 to |extra|
      invariant retained <= all
      invariant forall i :: i in all <==> i in retained || i in extra[..k]
    {
      if extra[k] !in all {
        all := all + [extra[k]];
      }
    }
  }
}
