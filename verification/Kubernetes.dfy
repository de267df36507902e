/** The part of a Kubernetes API server that cleanup relies on.  Identifiers are never
    reused, an object keeps its kind, namespace and name for life, and every change of
    an object gives it a version that no object had before. */
module Kubernetes {

  datatype Kind = Pod | Service

  type Labels = map<string, string>

  datatype Key = Key(kind: Kind, namespace: string, name: string)

  datatype Object = Object(key: Key, uid: nat, version: nat, labels: Labels)

  datatype World = World(objects: map<Key, Object>, nextUid: nat, nextVersion: nat)

  /** What anyone else may do to the cluster between two of our steps. */
  datatype Action = Create(key: Key, labels: Labels) | Modify(key: Key, labels: Labels) | Remove(key: Key)

  datatype DeleteReply = Deleted | NotFound | Conflict

  ghost predicate Valid(w: World) {
    && (forall k :: k in w.objects ==>
          w.objects[k].key == k && w.objects[k].uid < w.nextUid && w.objects[k].version < w.nextVersion)
    && (forall k, l :: k in w.objects && l in w.objects && w.objects[k].uid == w.objects[l].uid ==> k == l)
  }

  function Act(w: World, a: Action): World {
    match a
    case Create(key, labels) =>
      if key in w.objects then w
      else World(w.objects[key := Object(key, w.nextUid, w.nextVersion, labels)], w.nextUid + 1, w.nextVersion + 1)
    case Modify(key, labels) =>
      if key !in w.objects then w
      else World(w.objects[key := Object(key, w.objects[key].uid, w.nextVersion, labels)], w.nextUid, w.nextVersion + 1)
    case Remove(key) => World(w.objects - {key}, w.nextUid, w.nextVersion)
  }

  function Run(w: World, actions: seq<Action>): World
    decreases |actions|
  {
    if actions == [] then w else Run(Act(w, actions[0]), actions[1..])
  }

  /** The objects of one kind and namespace whose labels include the selector. */
  function Listing(w: World, kind: Kind, namespace: string, selector: Labels): set<Object> {
    set k | k in w.objects && k.kind == kind && k.namespace == namespace && Selects(selector, w.objects[k].labels)
      :: w.objects[k]
  }

  predicate Selects(selector: Labels, labels: Labels) {
    forall l :: l in selector ==> l in labels && labels[l] == selector[l]
  }

  /** A delete request with preconditions on the identifier and the version. */
  function Reply(w: World, key: Key, uid: nat, version: nat): DeleteReply {
    if key !in w.objects then NotFound
    else if w.objects[key].uid != uid || w.objects[key].version != version then Conflict
    else Deleted
  }

  /** A granted delete removes the object, or marks it and leaves it to terminate later. */
  function AfterDelete(w: World, key: Key, uid: nat, version: nat, graceful: bool): World {
    if Reply(w, key, uid, version) != Deleted then w
    else if graceful then Act(w, Modify(key, w.objects[key].labels))
    else Act(w, Remove(key))
  }

  /** Others may put any labels on an object, remove it, and make a new one with any labels under its name, and
      leave all else as it is. */
  lemma OthersMay(w: World, key: Key, labels: Labels, other: Key)
    requires Valid(w) && other != key
    ensures var v := Run(w, [Modify(key, labels)]);
      key in w.objects ==>
        && key in v.objects && v.objects[key].labels == labels && v.objects[key].uid == w.objects[key].uid
        && v.objects[key].version > w.objects[key].version
        && (other in v.objects <==> other in w.objects) && (other in w.objects ==> v.objects[other] == w.objects[other])
    ensures key !in Run(w, [Remove(key)]).objects
    ensures var v := Run(w, [Remove(key), Create(key, labels)]);
      && key in v.objects && v.objects[key].labels == labels && v.objects[key].uid >= w.nextUid
      && (other in v.objects <==> other in w.objects) && (other in w.objects ==> v.objects[other] == w.objects[other])
  {
    assert Run(w, [Modify(key, labels)]) == Run(Act(w, Modify(key, labels)), []);
    assert [Remove(key), Create(key, labels)][1..] == [Create(key, labels)];
    assert Run(Act(w, Remove(key)), [Create(key, labels)]) == Run(Act(Act(w, Remove(key)), Create(key, labels)), []);
    assert Run(w, [Remove(key)]) == Run(Act(w, Remove(key)), []);
  }

  /** A delete is granted exactly if the identifier and the version are those of the object; then the object is
      gone, or it has a later version; otherwise nothing changes. */
  lemma DeleteIs(w: World, key: Key, uid: nat, version: nat, graceful: bool)
    requires Valid(w)
    ensures var v, reply := AfterDelete(w, key, uid, version, graceful), Reply(w, key, uid, version);
      if key in w.objects && w.objects[key].uid == uid && w.objects[key].version == version then
        && reply == Deleted && v.objects.Keys - {key} == w.objects.Keys - {key} && (key in v.objects <==> graceful)
        && (graceful ==> v.objects[key].uid == uid && v.objects[key].version > version
                         && v.objects[key].labels == w.objects[key].labels)
      else v == w && reply == if key in w.objects then Conflict else NotFound
  {
  }

  // --------------------------------------------------------- what time preserves

  /** `v` is a state that may come after `w`. */
  ghost predicate Later(w: World, v: World) {
    && w.nextUid <= v.nextUid && w.nextVersion <= v.nextVersion
    && forall k :: k in v.objects && v.objects[k].uid < w.nextUid ==>
         && k in w.objects && w.objects[k].uid == v.objects[k].uid
         && (v.objects[k].version >= w.nextVersion || v.objects[k] == w.objects[k])
  }

  /** The identifier was given out and no object has it any more. */
  ghost predicate Gone(w: World, uid: nat) {
    uid < w.nextUid && forall k :: k in w.objects ==> w.objects[k].uid != uid
  }

  /** Only an object under this key can have the identifier. */
  ghost predicate Pinned(w: World, uid: nat, key: Key) {
    uid < w.nextUid && forall k :: k in w.objects && w.objects[k].uid == uid ==> k == key
  }

  /** An object with this identifier and version carries the selected labels. */
  ghost predicate Settled(w: World, uid: nat, version: nat, selector: Labels) {
    && uid < w.nextUid && version < w.nextVersion
    && forall k :: k in w.objects && w.objects[k].uid == uid && w.objects[k].version == version ==>
         Selects(selector, w.objects[k].labels)
  }

  lemma ActIsLater(w: World, a: Action)
    requires Valid(w)
    ensures Valid(Act(w, a)) && Later(w, Act(w, a))
  {
  }

  lemma LaterIsReflexive(w: World)
    ensures Later(w, w)
  {
  }

  lemma LaterIsTransitive(u: World, v: World, w: World)
    requires Later(u, v) && Later(v, w)
    ensures Later(u, w)
  {
  }

  lemma {:induction false} RunIsLater(w: World, actions: seq<Action>)
    requires Valid(w)
    ensures Valid(Run(w, actions)) && Later(w, Run(w, actions))
    decreases |actions|
  {
    if actions != [] {
      ActIsLater(w, actions[0]);
      RunIsLater(Act(w, actions[0]), actions[1..]);
      LaterIsTransitive(w, Act(w, actions[0]), Run(w, actions));
    }
  }

  lemma DeleteIsLater(w: World, key: Key, uid: nat, version: nat, graceful: bool)
    requires Valid(w)
    ensures Valid(AfterDelete(w, key, uid, version, graceful))
    ensures Later(w, AfterDelete(w, key, uid, version, graceful))
  {
    if key in w.objects {
      ActIsLater(w, Modify(key, w.objects[key].labels));
      ActIsLater(w, Remove(key));
    }
  }

  lemma LaterPreserves(w: World, v: World)
    requires Later(w, v)
    ensures forall uid :: Gone(w, uid) ==> Gone(v, uid)
    ensures forall uid, key :: Pinned(w, uid, key) ==> Pinned(v, uid, key)
    ensures forall uid, version, selector :: Settled(w, uid, version, selector) ==> Settled(v, uid, version, selector)
  {
  }

  /** Absence is permanent: whatever is done to the cluster, an identifier that is gone stays gone. */
  lemma GoneForever(w: World, uid: nat, actions: seq<Action>)
    requires Valid(w) && Gone(w, uid)
    ensures Gone(Run(w, actions), uid)
  {
    RunIsLater(w, actions);
    LaterPreserves(w, Run(w, actions));
  }

  /** A listed object is pinned to its key and settled at its version. */
  lemma ListedIsKnown(w: World, kind: Kind, namespace: string, selector: Labels)
    requires Valid(w)
    ensures forall o :: o in Listing(w, kind, namespace, selector) ==>
      && o.key.kind == kind && o.key.namespace == namespace && Selects(selector, o.labels)
      && Pinned(w, o.uid, o.key) && Settled(w, o.uid, o.version, selector)
  {
  }

  /** A granted delete of a settled identifier and version hits an object with the selected labels. */
  lemma GrantedDeleteIsSelected(w: World, key: Key, uid: nat, version: nat, selector: Labels)
    requires Valid(w) && Settled(w, uid, version, selector) && Reply(w, key, uid, version) == Deleted
    ensures key in w.objects && w.objects[key].key == key && w.objects[key].uid == uid
    ensures Selects(selector, w.objects[key].labels)
  {
  }

  /** Reading the only key an identifier can have, and not finding it there, shows that it is gone. */
  lemma UnreadIsGone(w: World, uid: nat, key: Key)
    requires Pinned(w, uid, key)
    requires key !in w.objects || w.objects[key].uid != uid
    ensures Gone(w, uid)
  {
  }
}
