/**
 * The cluster store of one namespace as the reconcilers see it, and the store
 * operations they issue.
 *
 * A `World` is the store together with the trace of every call issued so far. Store
 * failures are injected by an `Oracle`: the call issued when the trace has length `i`
 * fails with message `faults[i]` exactly when `i` is a key of `faults`. Absence is not a
 * failure of the store: `Get` and `Update` of a missing object report `NotFound`, and
 * deleting a missing object succeeds.
 */
module Cluster {
  import opened Common
  import opened Api
  import opened LegacyApi
  import opened Objects

  datatype Kind =
    | MicroserviceKind | LegacyDeploymentKind | ScheduledAutoscalerKind
    | IngressKind | ServiceKind | DeploymentKind | ServiceAccountKind | SecretKind | HpaKind

  /** Objects are identified by kind and name (one namespace). */
  datatype Key = Key(kind: Kind, name: string)

  datatype Object =
    | MicroserviceObj(ms: Microservice)
    | LegacyObj(legacy: LegacyDeployment)
    | ScheduledAutoscalerObj(sa: ScheduledAutoscaler)
    | IngressObj(ingress: Ingress)
    | ServiceObj(service: Service)
    | DeploymentObj(deployment: Deployment)
    | ServiceAccountObj(account: ServiceAccount)
    | SecretObj(secret: Secret)
    | HpaObj(hpa: Hpa)

  function KeyOf(obj: Object): Key
  {
    match obj
    case MicroserviceObj(ms) => Key(MicroserviceKind, ms.name)
    case LegacyObj(d) => Key(LegacyDeploymentKind, d.name)
    case ScheduledAutoscalerObj(sa) => Key(ScheduledAutoscalerKind, sa.name)
    case IngressObj(i) => Key(IngressKind, i.meta.name)
    case ServiceObj(s) => Key(ServiceKind, s.meta.name)
    case DeploymentObj(d) => Key(DeploymentKind, d.meta.name)
    case ServiceAccountObj(a) => Key(ServiceAccountKind, a.meta.name)
    case SecretObj(s) => Key(SecretKind, s.meta.name)
    case HpaObj(h) => Key(HpaKind, h.meta.name)
  }

  type Store = map<Key, Object>

  /** Every object is stored under its own kind and name. */
  predicate Keyed(s: Store)
  {
    forall k | k in s :: KeyOf(s[k]) == k
  }

  /** The kinds a Microservice owns. */
  const ChildKinds: set<Kind> := {IngressKind, ServiceKind, DeploymentKind, ServiceAccountKind, SecretKind, HpaKind}

  datatype Call =
    | ListCall(listed: Kind)
    | GetCall(key: Key)
    | CreateCall(key: Key)
    | UpdateCall(key: Key)
    | DeleteCall(key: Key)
    | StatusCall(key: Key)

  datatype World = World(store: Store, trace: seq<Call>)

  datatype Oracle = Oracle(faults: map<nat, string>)

  datatype Error =
    | StoreFailure(call: nat, msg: string)
    | NotFound(missing: Key)
    | StatusWriteFailed(kind: Kind, cause: Error)
    | CronRejected(expr: string)

  function KindName(k: Kind): string
  {
    match k
    case MicroserviceKind => "Microservice"
    case LegacyDeploymentKind => "Deployment"
    case ScheduledAutoscalerKind => "ScheduledAutoscaler"
    case IngressKind => "Ingress"
    case ServiceKind => "Service"
    case DeploymentKind => "Deployment"
    case ServiceAccountKind => "ServiceAccount"
    case SecretKind => "Secret"
    case HpaKind => "HorizontalPodAutoscaler"
  }

  /** The text an error prints, which is what a status records. */
  function Message(e: Error): string
  {
    match e
    case StoreFailure(_, msg) => msg
    case NotFound(k) => "\"" + k.name + "\" not found"
    case StatusWriteFailed(kind, cause) => "failed to update the " + KindName(kind) + " status: " + Message(cause)
    case CronRejected(expr) => "failed to parse cron expression " + expr
  }

  /** The next call issued in `w` fails. */
  predicate Faults(o: Oracle, w: World)
  {
    |w.trace| in o.faults
  }

  function FaultAt(o: Oracle, i: nat): Error
    requires i in o.faults
  {
    StoreFailure(i, o.faults[i])
  }

  /** No call numbered in [lo, hi) fails. */
  predicate Quiet(o: Oracle, lo: nat, hi: nat)
  {
    forall i: nat :: lo <= i < hi ==> i !in o.faults
  }

  /** Two failing calls each preceded by a fault-free window from `lo` are the same call. */
  lemma FirstFaultUnique(o: Oracle, lo: nat, a: nat, b: nat)
    requires lo <= a && lo <= b && a in o.faults && b in o.faults
    requires Quiet(o, lo, a) && Quiet(o, lo, b)
    ensures a == b
  {
  }

  /** A failed step failed at its own last call, with that call's store error. */
  predicate FailedAtLast(o: Oracle, r: Step)
  {
    r.err.Some? ==> |r.w.trace| > 0 && |r.w.trace| - 1 in o.faults && r.err == Some(FaultAt(o, |r.w.trace| - 1))
  }

  function Issue(w: World, c: Call): World
  {
    World(w.store, w.trace + [c])
  }

  function Put(s: Store, obj: Object): Store
  {
    s[KeyOf(obj) := obj]
  }

  /** The store after create-if-absent: unchanged when an object of that key exists. */
  function Created(s: Store, obj: Object): Store
  {
    if KeyOf(obj) in s then s else Put(s, obj)
  }

  /** `a` and `b` agree on key `k`. */
  predicate Agree(a: Store, b: Store, k: Key)
  {
    (k in a <==> k in b) && (k in a ==> a[k] == b[k])
  }

  /** Only objects of the kinds `ks` differ between `a` and `b`. */
  ghost predicate OnlyKinds(a: Store, b: Store, ks: set<Kind>)
  {
    forall k: Key {:trigger Agree(a, b, k)} :: k.kind !in ks ==> Agree(a, b, k)
  }

  /** Only the objects under `keys` differ between `a` and `b`. */
  ghost predicate OnlyKeys(a: Store, b: Store, keys: set<Key>)
  {
    forall k: Key {:trigger Agree(a, b, k)} :: k !in keys ==> Agree(a, b, k)
  }

  lemma OnlyKindsTrans(a: Store, b: Store, c: Store, ks1: set<Kind>, ks2: set<Kind>, ks: set<Kind>)
    requires OnlyKinds(a, b, ks1) && OnlyKinds(b, c, ks2)
    requires ks1 + ks2 <= ks
    ensures OnlyKinds(a, c, ks)
  {
    forall k: Key | k.kind !in ks ensures Agree(a, c, k) {
      assert Agree(a, b, k) && Agree(b, c, k);
    }
  }

  datatype Step = Step(w: World, err: Option<Error>)

  datatype Fetched = Fetched(w: World, obj: Option<Object>, err: Option<Error>)

  /** Reads one object: a store failure, not-found, or the stored object. */
  function Get(w: World, o: Oracle, key: Key): (r: Fetched)
    ensures r.w == Issue(w, GetCall(key))
    ensures r.err.None? <==> r.obj.Some?
    ensures r.obj.Some? <==> !Faults(o, w) && key in w.store
    ensures r.obj.Some? ==> r.obj.value == w.store[key]
    ensures Faults(o, w) ==> r.err == Some(FaultAt(o, |w.trace|))
    ensures !Faults(o, w) && key !in w.store ==> r.err == Some(NotFound(key))
  {
    var w' := Issue(w, GetCall(key));
    if Faults(o, w) then Fetched(w', None, Some(FaultAt(o, |w.trace|)))
    else if key !in w.store then Fetched(w', None, Some(NotFound(key)))
    else Fetched(w', Some(w.store[key]), None)
  }

  /** Lists the objects of one kind; the names come back through the caller's `listing`. */
  function List(w: World, o: Oracle, kind: Kind): (r: Step)
    ensures r.w == Issue(w, ListCall(kind))
    ensures r.err.Some? <==> Faults(o, w)
    ensures Faults(o, w) ==> r.err == Some(FaultAt(o, |w.trace|))
  {
    Step(Issue(w, ListCall(kind)), if Faults(o, w) then Some(FaultAt(o, |w.trace|)) else None)
  }

  /** Creates `obj` unless an object of its key already exists. */
  function CreateIfAbsent(w: World, o: Oracle, obj: Object): (r: Step)
    ensures r.w.trace == w.trace + [CreateCall(KeyOf(obj))]
    ensures Faults(o, w) ==> r.err == Some(FaultAt(o, |w.trace|)) && r.w.store == w.store
    ensures !Faults(o, w) ==> r.err.None? && r.w.store == Created(w.store, obj)
  {
    var w' := Issue(w, CreateCall(KeyOf(obj)));
    if Faults(o, w) then Step(w', Some(FaultAt(o, |w.trace|)))
    else Step(World(Created(w.store, obj), w'.trace), None)
  }

  /** Replaces the stored object of `obj`'s key by `obj`. */
  function Update(w: World, o: Oracle, obj: Object): (r: Step)
    ensures r.w.trace == w.trace + [UpdateCall(KeyOf(obj))]
    ensures Faults(o, w) ==> r.err == Some(FaultAt(o, |w.trace|)) && r.w.store == w.store
    ensures !Faults(o, w) && KeyOf(obj) !in w.store ==> r.err == Some(NotFound(KeyOf(obj))) && r.w.store == w.store
    ensures !Faults(o, w) && KeyOf(obj) in w.store ==> r.err.None? && r.w.store == Put(w.store, obj)
  {
    var w' := Issue(w, UpdateCall(KeyOf(obj)));
    if Faults(o, w) then Step(w', Some(FaultAt(o, |w.trace|)))
    else if KeyOf(obj) !in w.store then Step(w', Some(NotFound(KeyOf(obj))))
    else Step(World(Put(w.store, obj), w'.trace), None)
  }

  /** Deletes by key; deleting an absent object succeeds. */
  function Delete(w: World, o: Oracle, key: Key): (r: Step)
    ensures r.w.trace == w.trace + [DeleteCall(key)]
    ensures Faults(o, w) ==> r.err == Some(FaultAt(o, |w.trace|)) && r.w.store == w.store
    ensures !Faults(o, w) ==> r.err.None? && r.w.store == w.store - {key} && key !in r.w.store
  {
    var w' := Issue(w, DeleteCall(key));
    if Faults(o, w) then Step(w', Some(FaultAt(o, |w.trace|)))
    else Step(World(w.store - {key}, w'.trace), None)
  }

  /** The calls of one create-if-absent, get, update sequence. */
  function EnsureCalls(k: Key): seq<Call>
  {
    [CreateCall(k), GetCall(k), UpdateCall(k)]
  }

  /**
   * The ensure shape every wanted child goes through: create if absent, read it back,
   * write the desired object. The first failing call ends the sequence.
   */
  function Ensure(w: World, o: Oracle, desired: Object): (r: Step)
    ensures var t := |w.trace|; var k := KeyOf(desired);
      && (t in o.faults ==> r == Step(Issue(w, CreateCall(k)), Some(FaultAt(o, t))))
      && (t !in o.faults && t + 1 in o.faults ==>
            r == Step(World(Created(w.store, desired), w.trace + EnsureCalls(k)[..2]), Some(FaultAt(o, t + 1))))
      && (Quiet(o, t, t + 2) && t + 2 in o.faults ==>
            r == Step(World(Created(w.store, desired), w.trace + EnsureCalls(k)), Some(FaultAt(o, t + 2))))
      && (Quiet(o, t, t + 3) ==> r == Step(World(Put(w.store, desired), w.trace + EnsureCalls(k)), None))
  {
    var k := KeyOf(desired);
    var c := CreateIfAbsent(w, o, desired);
    if c.err.Some? then c
    else
      var g := Get(c.w, o, k);
      if g.err.Some? then Step(g.w, g.err)
      else Update(g.w, o, desired)
  }

  /** The failure-free outcome of `Ensure` and what it issues, in one place. */
  lemma EnsureQuiet(w: World, o: Oracle, desired: Object)
    requires Quiet(o, |w.trace|, |w.trace| + 3)
    ensures Ensure(w, o, desired) == Step(World(Put(w.store, desired), w.trace + EnsureCalls(KeyOf(desired))), None)
  {
  }

  /** Whatever `Ensure` does, it touches only the desired object's key and never deletes. */
  lemma EnsureFrame(w: World, o: Oracle, desired: Object)
    ensures OnlyKeys(w.store, Ensure(w, o, desired).w.store, {KeyOf(desired)})
    ensures w.store.Keys <= Ensure(w, o, desired).w.store.Keys
    ensures w.trace <= Ensure(w, o, desired).w.trace
    ensures |Ensure(w, o, desired).w.trace| <= |w.trace| + 3
    ensures Ensure(w, o, desired).err.Some? ==>
      var n := |Ensure(w, o, desired).w.trace|;
      n > |w.trace| && n - 1 in o.faults && Quiet(o, |w.trace|, n - 1)
      && Ensure(w, o, desired).err == Some(FaultAt(o, n - 1))
    ensures Ensure(w, o, desired).err.None? <==> Quiet(o, |w.trace|, |w.trace| + 3)
  {
    EnsureStoreFrame(w, o, desired);
    EnsureFaultFrame(w, o, desired);
  }

  lemma EnsureStoreFrame(w: World, o: Oracle, desired: Object)
    ensures OnlyKeys(w.store, Ensure(w, o, desired).w.store, {KeyOf(desired)})
    ensures w.store.Keys <= Ensure(w, o, desired).w.store.Keys
  {
    var r := Ensure(w, o, desired);
    assert r.w.store in {w.store, Created(w.store, desired), Put(w.store, desired)};
  }

  lemma EnsureFaultFrame(w: World, o: Oracle, desired: Object)
    ensures w.trace <= Ensure(w, o, desired).w.trace
    ensures |Ensure(w, o, desired).w.trace| <= |w.trace| + 3
    ensures Ensure(w, o, desired).err.Some? ==>
      var n := |Ensure(w, o, desired).w.trace|;
      n > |w.trace| && n - 1 in o.faults && Quiet(o, |w.trace|, n - 1)
      && Ensure(w, o, desired).err == Some(FaultAt(o, n - 1))
    ensures Ensure(w, o, desired).err.None? <==> Quiet(o, |w.trace|, |w.trace| + 3)
  {
    var t := |w.trace|;
    if t in o.faults {
    } else if t + 1 in o.faults {
    } else if t + 2 in o.faults {
    } else {
      assert Quiet(o, t, t + 3);
    }
  }

  /**
   * What one ensure of `obj` promises: its calls are a prefix of create, get, update of
   * the object's key; only that key changes and it is never removed; it succeeds exactly
   * when none of the three calls fails, and then the object is stored as desired;
   * otherwise the last call issued is the first failing one, and the store holds what the
   * create (if it went through) left there.
   */
  ghost predicate Ensured(w: World, o: Oracle, obj: Object, r: Step)
  {
    && w.trace <= r.w.trace && |w.trace| < |r.w.trace|
    && r.w.trace[|w.trace|..] <= EnsureCalls(KeyOf(obj))
    && OnlyKeys(w.store, r.w.store, {KeyOf(obj)}) && w.store.Keys <= r.w.store.Keys
    && (r.err.None? <==> Quiet(o, |w.trace|, |w.trace| + 3))
    && (r.err.None? ==> r.w.store == Put(w.store, obj))
    && (r.err.Some? ==>
         && |r.w.trace| - 1 in o.faults && Quiet(o, |w.trace|, |r.w.trace| - 1)
         && r.err == Some(FaultAt(o, |r.w.trace| - 1))
         && r.w.store == if |r.w.trace| == |w.trace| + 1 then w.store else Created(w.store, obj))
  }

  lemma EnsureShape(w: World, o: Oracle, desired: Object)
    ensures Ensured(w, o, desired, Ensure(w, o, desired))
  {
    EnsureFrame(w, o, desired);
    var t := |w.trace|;
    var r := Ensure(w, o, desired);
    var k := KeyOf(desired);
    if t in o.faults {
      assert r.w.trace[t..] == EnsureCalls(k)[..1];
    } else if t + 1 in o.faults {
      assert r.w.trace[t..] == EnsureCalls(k)[..2];
    } else {
      assert r.w.trace[t..] == EnsureCalls(k);
    }
  }

  /** A failing first call of an ensure (the create) means no get and no update follow. */
  lemma EnsuredCreateFailureStops(w: World, o: Oracle, obj: Object, r: Step)
    requires Ensured(w, o, obj, r) && |w.trace| in o.faults
    ensures r.w.trace == w.trace + [CreateCall(KeyOf(obj))] && r.w.store == w.store
    ensures r.err == Some(FaultAt(o, |w.trace|))
  {
    FirstFaultUnique(o, |w.trace|, |r.w.trace| - 1, |w.trace|);
    assert r.w.trace[|w.trace|..] == [CreateCall(KeyOf(obj))];
    assert r.w.trace == r.w.trace[..|w.trace|] + r.w.trace[|w.trace|..];
  }

  /** A failing second call (the get) means the update is never issued. */
  lemma EnsuredGetFailureStops(w: World, o: Oracle, obj: Object, r: Step)
    requires Ensured(w, o, obj, r) && |w.trace| !in o.faults && |w.trace| + 1 in o.faults
    ensures r.w.trace == w.trace + [CreateCall(KeyOf(obj)), GetCall(KeyOf(obj))]
    ensures r.w.store == Created(w.store, obj)
    ensures r.err == Some(FaultAt(o, |w.trace| + 1))
  {
    assert !Quiet(o, |w.trace|, |w.trace| + 3);
    FirstFaultUnique(o, |w.trace|, |r.w.trace| - 1, |w.trace| + 1);
    assert r.w.trace[|w.trace|..] == EnsureCalls(KeyOf(obj))[..2];
    assert r.w.trace == r.w.trace[..|w.trace|] + r.w.trace[|w.trace|..];
  }

  /** What a delete by key promises: one call; on success the key is gone and nothing else changed. */
  ghost predicate Deleted(w: World, o: Oracle, key: Key, r: Step)
  {
    && r.w.trace == w.trace + [DeleteCall(key)]
    && (Faults(o, w) ==> r.err == Some(FaultAt(o, |w.trace|)) && r.w.store == w.store)
    && (!Faults(o, w) ==> r.err.None? && r.w.store == w.store - {key})
  }

  /** Ensuring the same object twice without failures leaves the store as one pass did. */
  lemma EnsureIdempotent(w: World, o: Oracle, desired: Object)
    requires Quiet(o, |w.trace|, |w.trace| + 6)
    ensures Ensure(Ensure(w, o, desired).w, o, desired).w.store == Ensure(w, o, desired).w.store
  {
    var t := |w.trace|;
    assert Quiet(o, t, t + 3);
    var once := Ensure(w, o, desired).w;
    assert |once.trace| == t + 3;
    assert Quiet(o, |once.trace|, |once.trace| + 3);
  }

  function DeleteCalls(keys: seq<Key>): (r: seq<Call>)
    ensures |r| == |keys|
    ensures forall i :: 0 <= i < |keys| ==> r[i] == DeleteCall(keys[i])
  {
    if |keys| == 0 then [] else [DeleteCall(keys[0])] + DeleteCalls(keys[1..])
  }

  function KeySet(keys: seq<Key>): set<Key>
  {
    set k | k in keys
  }

  lemma KeySetCons(keys: seq<Key>, n: nat)
    requires 0 < |keys| && n < |keys|
    ensures KeySet(keys[..n + 1]) == {keys[0]} + KeySet(keys[1..][..n])
  {
    assert keys[..n + 1] == [keys[0]] + keys[1..][..n];
  }

  /**
   * Deletes each key in order; the first failing delete ends the loop. `n` calls are
   * issued, and the store loses exactly the keys whose delete succeeded.
   */
  function DeleteEach(w: World, o: Oracle, keys: seq<Key>): (r: Step)
    ensures |w.trace| <= |r.w.trace| <= |w.trace| + |keys|
    ensures r.w.trace == w.trace + DeleteCalls(keys[..|r.w.trace| - |w.trace|])
    ensures r.err.None? <==> Quiet(o, |w.trace|, |w.trace| + |keys|)
    ensures r.err.None? ==> |r.w.trace| == |w.trace| + |keys| && r.w.store == w.store - KeySet(keys)
    ensures r.err.Some? ==>
      var n := |r.w.trace| - |w.trace|;
      && n > 0 && |r.w.trace| - 1 in o.faults && Quiet(o, |w.trace|, |r.w.trace| - 1)
      && r.err == Some(FaultAt(o, |r.w.trace| - 1))
      && r.w.store == w.store - KeySet(keys[..n - 1])
    decreases |keys|
  {
    if |keys| == 0 then Step(w, None)
    else
      var d := Delete(w, o, keys[0]);
      if d.err.Some? then d
      else
        var rest := DeleteEach(d.w, o, keys[1..]);
        DeleteEachStep(w, o, keys, d, rest);
        rest
  }

  lemma DeleteCallsCons(keys: seq<Key>, m: nat)
    requires m < |keys|
    ensures DeleteCalls(keys[..m + 1]) == [DeleteCall(keys[0])] + DeleteCalls(keys[1..][..m])
  {
    assert keys[..m + 1] == [keys[0]] + keys[1..][..m];
  }

  lemma MinusCons(s: Store, a: Key, b: set<Key>)
    ensures (s - {a}) - b == s - ({a} + b)
  {
  }

  lemma DeleteEachStep(w: World, o: Oracle, keys: seq<Key>, d: Step, rest: Step)
    requires |keys| > 0
    requires d == Delete(w, o, keys[0]) && d.err.None?
    requires |d.w.trace| <= |rest.w.trace| <= |d.w.trace| + |keys| - 1
    requires rest.w.trace == d.w.trace + DeleteCalls(keys[1..][..|rest.w.trace| - |d.w.trace|])
    requires rest.err.None? ==> |rest.w.trace| == |d.w.trace| + |keys| - 1 && rest.w.store == d.w.store - KeySet(keys[1..])
    requires rest.err.Some? ==>
      var n := |rest.w.trace| - |d.w.trace|;
      n > 0 && rest.w.store == d.w.store - KeySet(keys[1..][..n - 1])
    ensures rest.w.trace == w.trace + DeleteCalls(keys[..|rest.w.trace| - |w.trace|])
    ensures rest.err.None? ==> rest.w.store == w.store - KeySet(keys)
    ensures rest.err.Some? ==> rest.w.store == w.store - KeySet(keys[..|rest.w.trace| - |w.trace| - 1])
  {
    var m := |rest.w.trace| - |d.w.trace|;
    DeleteCallsCons(keys, m);
    assert rest.w.trace == w.trace + ([DeleteCall(keys[0])] + DeleteCalls(keys[1..][..m]));
    if rest.err.None? {
      assert keys[..m + 1] == keys;
      KeySetCons(keys, m);
      assert keys[1..][..m] == keys[1..];
      MinusCons(w.store, keys[0], KeySet(keys[1..]));
    } else {
      KeySetCons(keys, m - 1);
      MinusCons(w.store, keys[0], KeySet(keys[1..][..m - 1]));
    }
  }

  /** Writes each object in order. */
  function PutAll(s: Store, objs: seq<Object>): Store
    decreases |objs|
  {
    if |objs| == 0 then s else PutAll(Put(s, objs[0]), objs[1..])
  }

  function KeysOf(objs: seq<Object>): set<Key>
  {
    set i | 0 <= i < |objs| :: KeyOf(objs[i])
  }

  lemma KeysOfCons(objs: seq<Object>)
    requires |objs| > 0
    ensures KeysOf(objs) == {KeyOf(objs[0])} + KeysOf(objs[1..])
  {
    forall k | k in KeysOf(objs) ensures k in {KeyOf(objs[0])} + KeysOf(objs[1..]) {
      var i :| 0 <= i < |objs| && KeyOf(objs[i]) == k;
      if i > 0 {
        assert KeyOf(objs[1..][i - 1]) == k;
      }
    }
    forall k | k in KeysOf(objs[1..]) ensures k in KeysOf(objs) {
      var i :| 0 <= i < |objs[1..]| && KeyOf(objs[1..][i]) == k;
      assert KeyOf(objs[i + 1]) == k;
    }
  }

  function EnsureAllCalls(objs: seq<Object>): (r: seq<Call>)
    ensures |r| == 3 * |objs|
  {
    if |objs| == 0 then [] else EnsureCalls(KeyOf(objs[0])) + EnsureAllCalls(objs[1..])
  }

  /** The call touches one of `keys` and is not a delete. */
  predicate EnsuresOnly(c: Call, keys: set<Key>)
  {
    (c.CreateCall? || c.GetCall? || c.UpdateCall?) && c.key in keys
  }

  /**
   * What `EnsureEach` promises: it issues only creates, gets and updates of the objects'
   * keys, never removes a key, touches nothing else, succeeds exactly when none of its
   * 3 * |objs| calls fails and then has written every object; otherwise it stops at the
   * first failing call.
   */
  ghost predicate EnsuredEach(w: World, o: Oracle, objs: seq<Object>, r: Step)
  {
    && w.trace <= r.w.trace
    && (forall i :: |w.trace| <= i < |r.w.trace| ==> EnsuresOnly(r.w.trace[i], KeysOf(objs)))
    && w.store.Keys <= r.w.store.Keys
    && OnlyKeys(w.store, r.w.store, KeysOf(objs))
    && (r.err.None? <==> Quiet(o, |w.trace|, |w.trace| + 3 * |objs|))
    && (r.err.None? ==> r.w == World(PutAll(w.store, objs), w.trace + EnsureAllCalls(objs)))
    && (r.err.Some? ==>
         && |r.w.trace| > |w.trace| && |r.w.trace| - 1 in o.faults
         && Quiet(o, |w.trace|, |r.w.trace| - 1)
         && r.err == Some(FaultAt(o, |r.w.trace| - 1)))
  }

  /** Ensures each object in order; the first failure ends the loop. */
  function EnsureEach(w: World, o: Oracle, objs: seq<Object>): (r: Step)
    ensures EnsuredEach(w, o, objs, r)
    decreases |objs|
  {
    if |objs| == 0 then
      assert PutAll(w.store, objs) == w.store;
      Step(w, None)
    else
      var e := Ensure(w, o, objs[0]);
      if e.err.Some? then
        EnsureFirstFails(w, o, objs, e);
        e
      else
        var rest := EnsureEach(e.w, o, objs[1..]);
        EnsureEachCons(w, o, objs, e, rest);
        rest
  }

  /** The loop stops at its first failing call: nothing after it is issued. */
  lemma EnsureEachStopsAt(w: World, o: Oracle, objs: seq<Object>, j: nat)
    requires j < 3 * |objs|
    requires Quiet(o, |w.trace|, |w.trace| + j) && |w.trace| + j in o.faults
    ensures EnsureEach(w, o, objs).err == Some(FaultAt(o, |w.trace| + j))
    ensures |EnsureEach(w, o, objs).w.trace| == |w.trace| + j + 1
  {
    var e := EnsureEach(w, o, objs);
    assert !Quiet(o, |w.trace|, |w.trace| + 3 * |objs|);
    FirstFaultUnique(o, |w.trace|, |e.w.trace| - 1, |w.trace| + j);
  }

  lemma EnsureFirstFails(w: World, o: Oracle, objs: seq<Object>, e: Step)
    requires |objs| > 0 && e == Ensure(w, o, objs[0]) && e.err.Some?
    ensures EnsuredEach(w, o, objs, e)
  {
    EnsureFrame(w, o, objs[0]);
    KeysOfCons(objs);
    EnsureCallsOnly(w, o, objs[0], KeysOf(objs));
    assert !Quiet(o, |w.trace|, |w.trace| + 3 * |objs|) by {
      assert |w.trace| <= |e.w.trace| - 1 < |w.trace| + 3;
    }
    FrameWiden(w.store, e.w.store, {KeyOf(objs[0])}, KeysOf(objs));
  }

  /** The calls of one `Ensure` are a create, a get and an update of the object's key. */
  lemma EnsureCallsOnly(w: World, o: Oracle, desired: Object, keys: set<Key>)
    requires KeyOf(desired) in keys
    ensures var r := Ensure(w, o, desired);
      forall i :: |w.trace| <= i < |r.w.trace| ==> EnsuresOnly(r.w.trace[i], keys)
  {
    EnsureFrame(w, o, desired);
  }

  lemma FrameWiden(a: Store, b: Store, small: set<Key>, large: set<Key>)
    requires OnlyKeys(a, b, small) && small <= large
    ensures OnlyKeys(a, b, large)
  {
  }

  /** One successful `Ensure` followed by the rest of the loop is the whole loop. */
  lemma EnsureEachCons(w: World, o: Oracle, objs: seq<Object>, e: Step, rest: Step)
    requires |objs| > 0 && e == Ensure(w, o, objs[0]) && e.err.None?
    requires EnsuredEach(e.w, o, objs[1..], rest)
    ensures EnsuredEach(w, o, objs, rest)
  {
    EnsureFrame(w, o, objs[0]);
    EnsureQuiet(w, o, objs[0]);
    KeysOfCons(objs);
    EnsureCallsOnly(w, o, objs[0], KeysOf(objs));
    EnsureEachCalls(w, e, rest, KeysOf(objs[1..]), KeysOf(objs));
    EnsureEachFrame(w.store, e.w.store, rest.w.store, KeyOf(objs[0]), KeysOf(objs[1..]), KeysOf(objs));
    EnsureEachQuiet(o, |w.trace|, |e.w.trace|, |rest.w.trace|, |objs|, rest.err.None?);
    if rest.err.None? {
      assert EnsureAllCalls(objs) == EnsureCalls(KeyOf(objs[0])) + EnsureAllCalls(objs[1..]);
      assert w.trace + EnsureAllCalls(objs) == e.w.trace + EnsureAllCalls(objs[1..]);
    }
  }

  lemma EnsureEachCalls(w: World, e: Step, rest: Step, tail: set<Key>, all: set<Key>)
    requires w.trace <= e.w.trace && e.w.trace <= rest.w.trace
    requires forall i :: |w.trace| <= i < |e.w.trace| ==> EnsuresOnly(e.w.trace[i], all)
    requires forall i :: |e.w.trace| <= i < |rest.w.trace| ==> EnsuresOnly(rest.w.trace[i], tail)
    requires tail <= all
    ensures w.trace <= rest.w.trace
    ensures forall i :: |w.trace| <= i < |rest.w.trace| ==> EnsuresOnly(rest.w.trace[i], all)
  {
    forall i | |w.trace| <= i < |rest.w.trace| ensures EnsuresOnly(rest.w.trace[i], all) {
      if i < |e.w.trace| {
        assert rest.w.trace[i] == e.w.trace[i];
      }
    }
  }

  lemma EnsureEachFrame(a: Store, b: Store, c: Store, k: Key, tail: set<Key>, all: set<Key>)
    requires OnlyKeys(a, b, {k}) && OnlyKeys(b, c, tail)
    requires a.Keys <= b.Keys && b.Keys <= c.Keys
    requires {k} + tail <= all
    ensures OnlyKeys(a, c, all) && a.Keys <= c.Keys
  {
    forall j: Key | j !in all ensures Agree(a, c, j) {
      assert Agree(a, b, j) && Agree(b, c, j);
    }
  }

  /** Fault-freedom of a window splits at any point inside it. */
  lemma EnsureEachQuiet(o: Oracle, t: nat, t1: nat, t2: nat, n: nat, tailOk: bool)
    requires n > 0 && t1 == t + 3 && Quiet(o, t, t1)
    requires tailOk <==> Quiet(o, t1, t1 + 3 * (n - 1))
    requires !tailOk ==> t2 > t1 && Quiet(o, t1, t2 - 1) && t2 - 1 in o.faults
    ensures tailOk <==> Quiet(o, t, t + 3 * n)
    ensures !tailOk ==> Quiet(o, t, t2 - 1)
  {
    if tailOk {
      forall i: nat | t <= i < t + 3 * n ensures i !in o.faults {
        if i >= t1 {
          assert t1 <= i < t1 + 3 * (n - 1);
        }
      }
    } else {
      var j: nat :| t1 <= j < t1 + 3 * (n - 1) && j in o.faults;
      assert t <= j < t + 3 * n;
      forall i: nat | t <= i < t2 - 1 ensures i !in o.faults {
        if i >= t1 {
          assert t1 <= i < t2 - 1;
        }
      }
    }
  }

  /** The status record of a workload object, if the object has one of this shape. */
  function StatusOf(obj: Object): Option<Status>
  {
    match obj
    case MicroserviceObj(ms) => Some(ms.status)
    case LegacyObj(d) => Some(d.status)
    case _ => None
  }

  /**
   * `b` is `a` with at most its status record replaced: same constructor, and every
   * field other than the status equal. An object without a status record is unchanged.
   */
  predicate SameButStatus(a: Object, b: Object)
  {
    match a
    case MicroserviceObj(ms) => b.MicroserviceObj? && ms.(status := b.ms.status) == b.ms
    case LegacyObj(d) => b.LegacyObj? && d.(status := b.legacy.status) == b.legacy
    case ScheduledAutoscalerObj(sa) => b.ScheduledAutoscalerObj? && sa.(status := b.sa.status) == b.sa
    case _ => b == a
  }

  function WithStatus(obj: Object, s: Status): (r: Object)
    ensures KeyOf(r) == KeyOf(obj)
    ensures StatusOf(obj).Some? ==> StatusOf(r) == Some(s)
    ensures SameButStatus(obj, r)
  {
    match obj
    case MicroserviceObj(ms) => MicroserviceObj(ms.(status := s))
    case LegacyObj(d) => LegacyObj(d.(status := s))
    case _ => obj
  }

  /** The status stored under `key`, if any. */
  function StoredStatus(s: Store, key: Key): Option<Status>
  {
    if key in s then StatusOf(s[key]) else None
  }

  /** Writes the status subresource of the workload under `key`. */
  function WriteStatus(w: World, o: Oracle, key: Key, s: Status): (r: Step)
    ensures r.w.trace == w.trace + [StatusCall(key)]
    ensures Faults(o, w) ==> r.err == Some(FaultAt(o, |w.trace|)) && r.w.store == w.store
    ensures !Faults(o, w) && StoredStatus(w.store, key).None? ==> r.err == Some(NotFound(key)) && r.w.store == w.store
    ensures !Faults(o, w) && StoredStatus(w.store, key).Some? ==>
      r.err.None? && r.w.store == w.store[key := WithStatus(w.store[key], s)]
  {
    var w' := Issue(w, StatusCall(key));
    if Faults(o, w) then Step(w', Some(FaultAt(o, |w.trace|)))
    else if StoredStatus(w.store, key).None? then Step(w', Some(NotFound(key)))
    else Step(World(w.store[key := WithStatus(w.store[key], s)], w'.trace), None)
  }

  /** The status record of a schedule definition. */
  function SaStatusOf(obj: Object): Option<ScheduledAutoscalerStatus>
  {
    if obj.ScheduledAutoscalerObj? then Some(obj.sa.status) else None
  }

  function StoredSaStatus(s: Store, key: Key): Option<ScheduledAutoscalerStatus>
  {
    if key in s then SaStatusOf(s[key]) else None
  }

  /** Writes the status subresource of the schedule definition under `key`. */
  function WriteSaStatus(w: World, o: Oracle, key: Key, s: ScheduledAutoscalerStatus): (r: Step)
    ensures r.w.trace == w.trace + [StatusCall(key)]
    ensures Faults(o, w) ==> r.err == Some(FaultAt(o, |w.trace|)) && r.w.store == w.store
    ensures !Faults(o, w) && StoredSaStatus(w.store, key).None? ==> r.err == Some(NotFound(key)) && r.w.store == w.store
    ensures !Faults(o, w) && StoredSaStatus(w.store, key).Some? ==>
      r.err.None? && r.w.store == w.store[key := ScheduledAutoscalerObj(w.store[key].sa.(status := s))]
  {
    var w' := Issue(w, StatusCall(key));
    if Faults(o, w) then Step(w', Some(FaultAt(o, |w.trace|)))
    else if StoredSaStatus(w.store, key).None? then Step(w', Some(NotFound(key)))
    else Step(World(w.store[key := ScheduledAutoscalerObj(w.store[key].sa.(status := s))], w'.trace), None)
  }
}
