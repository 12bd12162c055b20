/**
 * The ingress and service steps of a Microservice reconcile pass.
 *
 * `checkIngress` lists every ingress of the namespace first. With no rules, or with
 * ingress disabled, it deletes each listed ingress whose name merely CONTAINS the
 * workload's name; otherwise it ensures every generated ingress and deletes nothing.
 * `checkService` deletes the workload's service when there are no rules, and otherwise
 * ensures the generated service, merging the fields the cluster assigned into it first.
 */
module IngressCheck {
  import opened Common
  import opened Api
  import opened Objects
  import opened Cluster
  import IngressGen
  import ServiceGen

  /** `listing` enumerates exactly the names of the ingresses in `s`, as a List call returns them. */
  ghost predicate Listed(s: Store, listing: seq<string>)
  {
    forall n: string :: n in listing <==> Key(IngressKind, n) in s
  }

  /** The ingress keys, in listing order, whose names contain `workload`. */
  function Doomed(listing: seq<string>, workload: string): (r: seq<Key>)
    ensures |r| <= |listing|
    ensures forall k :: k in r <==> k.kind == IngressKind && k.name in listing && Contains(k.name, workload)
  {
    if |listing| == 0 then []
    else
      var rest := Doomed(listing[1..], workload);
      assert forall n :: n in listing <==> n == listing[0] || n in listing[1..];
      if Contains(listing[0], workload) then [Key(IngressKind, listing[0])] + rest else rest
  }

  function IngressObjects(ings: seq<Ingress>): (r: seq<Object>)
    ensures |r| == |ings|
    ensures forall i :: 0 <= i < |ings| ==> r[i] == IngressObj(ings[i])
  {
    seq(|ings|, i requires 0 <= i < |ings| => IngressObj(ings[i]))
  }

  /** The deleting branch is taken: no rules, or ingress switched off. */
  predicate IngressUnwanted(ms: Microservice)
  {
    |ms.spec.ingress| < 1 || !ms.spec.ingressEnabled
  }

  /** The deleting branch: each listed ingress whose name contains the workload's, in listing order. */
  function DeleteContaining(w: World, o: Oracle, ms: Microservice, listing: seq<string>): (r: Step)
    ensures w.trace <= r.w.trace
    ensures forall i :: |w.trace| <= i < |r.w.trace| ==> r.w.trace[i].DeleteCall?
    ensures OnlyKinds(w.store, r.w.store, {IngressKind})
    ensures FailedAtLast(o, r)
    ensures o.faults == map[] ==> r.err.None?
  {
    var doomed := Doomed(listing, ms.name);
    var d := DeleteEach(w, o, doomed);
    DeleteEachIngressesOnly(w, o, doomed, d);
    DeleteEachFacts(w, o, doomed, d);
    d
  }

  /** The ensuring branch: every generated ingress in order; nothing is deleted. */
  function EnsureGenerated(w: World, o: Oracle, ms: Microservice): (r: Step)
    ensures EnsuredEach(w, o, IngressObjects(IngressGen.GenerateIngresses(ms)), r)
    ensures forall i :: |w.trace| <= i < |r.w.trace| ==> !r.w.trace[i].DeleteCall?
    ensures OnlyKinds(w.store, r.w.store, {IngressKind})
    ensures FailedAtLast(o, r)
  {
    var objs := IngressObjects(IngressGen.GenerateIngresses(ms));
    var e := EnsureEach(w, o, objs);
    EnsuredEachIngresses(w, o, objs, e);
    e
  }

  /**
   * One run of `checkIngress`. Whatever happens, the List call comes first and only
   * ingresses change; a failing List ends the step before anything is written.
   */
  function CheckIngress(w: World, o: Oracle, ms: Microservice, listing: seq<string>): (r: Step)
    ensures |r.w.trace| > |w.trace| && r.w.trace[|w.trace|] == ListCall(IngressKind) && w.trace <= r.w.trace
    ensures Faults(o, w) ==> r == Step(Issue(w, ListCall(IngressKind)), Some(FaultAt(o, |w.trace|)))
    ensures OnlyKinds(w.store, r.w.store, {IngressKind})
    ensures FailedAtLast(o, r)
    ensures o.faults == map[] ==> r.err.None?
    ensures IngressUnwanted(ms) ==>
      forall i :: |w.trace| < i < |r.w.trace| ==> r.w.trace[i].DeleteCall?
    ensures !IngressUnwanted(ms) ==>
      && w.store.Keys <= r.w.store.Keys
      && forall i :: |w.trace| < i < |r.w.trace| ==> !r.w.trace[i].DeleteCall?
  {
    var l := List(w, o, IngressKind);
    if l.err.Some? then l
    else if IngressUnwanted(ms) then DeleteContaining(l.w, o, ms, listing)
    else EnsureGenerated(l.w, o, ms)
  }

  lemma DeleteEachIngressesOnly(w: World, o: Oracle, doomed: seq<Key>, d: Step)
    requires forall k :: k in doomed ==> k.kind == IngressKind
    requires d == DeleteEach(w, o, doomed)
    ensures OnlyKinds(w.store, d.w.store, {IngressKind})
    ensures w.trace <= d.w.trace
  {
    var n := |d.w.trace| - |w.trace|;
    var gone := if d.err.None? then KeySet(doomed) else KeySet(doomed[..n - 1]);
    assert d.w.store == w.store - gone;
    forall k: Key | k.kind != IngressKind ensures Agree(w.store, d.w.store, k) {
      assert k !in gone;
    }
  }

  /** A delete loop issues only deletes, and a failed one failed at its last call. */
  lemma DeleteEachFacts(w: World, o: Oracle, doomed: seq<Key>, d: Step)
    requires d == DeleteEach(w, o, doomed)
    ensures forall i :: |w.trace| <= i < |d.w.trace| ==> d.w.trace[i].DeleteCall?
    ensures FailedAtLast(o, d)
    ensures o.faults == map[] ==> d.err.None?
  {
    DeleteEachOnlyDeletes(w, d.w.trace, doomed[..|d.w.trace| - |w.trace|]);
  }

  lemma DeleteEachOnlyDeletes(w: World, t: seq<Call>, keys: seq<Key>)
    requires t == w.trace + DeleteCalls(keys)
    ensures forall i :: |w.trace| <= i < |t| ==> t[i].DeleteCall?
  {
    forall i | |w.trace| <= i < |t| ensures t[i].DeleteCall? {
      assert t[i] == DeleteCalls(keys)[i - |w.trace|];
    }
  }

  /** The ensure loop over ingresses: only ingresses change, no deletes, failure at the last call. */
  lemma EnsuredEachIngresses(w: World, o: Oracle, objs: seq<Object>, e: Step)
    requires forall i :: 0 <= i < |objs| ==> objs[i].IngressObj?
    requires EnsuredEach(w, o, objs, e)
    ensures forall i :: |w.trace| <= i < |e.w.trace| ==> !e.w.trace[i].DeleteCall?
    ensures OnlyKinds(w.store, e.w.store, {IngressKind})
    ensures FailedAtLast(o, e)
  {
    IngressKeys(objs);
    EnsureEachIngressesOnly(w.store, e.w.store, KeysOf(objs));
    forall i | |w.trace| <= i < |e.w.trace| ensures !e.w.trace[i].DeleteCall? {
      assert EnsuresOnly(e.w.trace[i], KeysOf(objs));
    }
  }

  lemma IngressKeys(objs: seq<Object>)
    requires forall i :: 0 <= i < |objs| ==> objs[i].IngressObj?
    ensures forall k :: k in KeysOf(objs) ==> k.kind == IngressKind
  {
  }

  lemma EnsureEachIngressesOnly(a: Store, b: Store, keys: set<Key>)
    requires forall k :: k in keys ==> k.kind == IngressKind
    requires OnlyKeys(a, b, keys)
    ensures OnlyKinds(a, b, {IngressKind})
  {
    forall k: Key | k.kind != IngressKind ensures Agree(a, b, k) {
      assert k !in keys;
    }
  }

  /**
   * With no rules or ingress disabled, and no failing call, an ingress survives exactly
   * when its name does not contain the workload's name; everything else is untouched.
   */
  lemma UnwantedDeletesContaining(w: World, o: Oracle, ms: Microservice, listing: seq<string>)
    requires Listed(w.store, listing) && IngressUnwanted(ms)
    requires Quiet(o, |w.trace|, |w.trace| + 1 + |listing|)
    ensures var r := CheckIngress(w, o, ms, listing);
      && r.err.None?
      && forall k :: k in r.w.store <==> k in w.store && !(k.kind == IngressKind && Contains(k.name, ms.name))
  {
    var l := List(w, o, IngressKind);
    assert !Faults(o, w);
    var doomed := Doomed(listing, ms.name);
    assert Quiet(o, |l.w.trace|, |l.w.trace| + |doomed|);
    var d := DeleteEach(l.w, o, doomed);
    assert d.w.store == w.store - KeySet(doomed);
    forall k ensures k in d.w.store <==> k in w.store && !(k.kind == IngressKind && Contains(k.name, ms.name)) {
      assert k in KeySet(doomed) <==> k in doomed;
    }
  }

  /**
   * The deletion is by substring: a workload named "api" with ingress disabled deletes the
   * ingress of rule "public" of another workload named "payments-api".
   */
  lemma CollateralDeletion(w: World, o: Oracle, ms: Microservice, listing: seq<string>)
    requires ms.name == "api" && !ms.spec.ingressEnabled
    requires Listed(w.store, listing) && Key(IngressKind, IngressGen.IngressName("payments-api", "public")) in w.store
    requires Quiet(o, |w.trace|, |w.trace| + 1 + |listing|)
    ensures Key(IngressKind, IngressGen.IngressName("payments-api", "public")) !in CheckIngress(w, o, ms, listing).w.store
  {
    var victim := IngressGen.IngressName("payments-api", "public");
    assert victim == "payments-api-public";
    assert OccursAt(victim, "api", 9) by {
      assert victim[9..12] == "api";
    }
    UnwantedDeletesContaining(w, o, ms, listing);
  }

  /**
   * With rules and ingress enabled and no failing call, the generated ingresses are written
   * one after another, so an object is stored under the name of every generated ingress,
   * and no ingress disappears: left-over ingresses of removed rules stay.
   */
  lemma WantedStoresGenerated(w: World, o: Oracle, ms: Microservice, listing: seq<string>)
    requires !IngressUnwanted(ms)
    requires Quiet(o, |w.trace|, |w.trace| + 1 + 3 * |ms.spec.ingress|)
    ensures var r := CheckIngress(w, o, ms, listing);
      && r.err.None?
      && r.w.store == PutAll(w.store, IngressObjects(IngressGen.GenerateIngresses(ms)))
      && w.store.Keys <= r.w.store.Keys
      && forall ing :: ing in IngressGen.GenerateIngresses(ms) ==>
           Key(IngressKind, ing.meta.name) in r.w.store
  {
    var l := List(w, o, IngressKind);
    assert !Faults(o, w);
    var gen := IngressGen.GenerateIngresses(ms);
    var objs := IngressObjects(gen);
    assert Quiet(o, |l.w.trace|, |l.w.trace| + 3 * |objs|);
    var e := EnsureGenerated(l.w, o, ms);
    assert CheckIngress(w, o, ms, listing) == e;
    assert e.err.None? && e.w.store == PutAll(l.w.store, objs);
    PutAllStoresEach(l.w.store, gen);
  }

  /**
   * Writing the generated ingresses over a store in order leaves the one of rule `i` stored
   * under its name, unless a later rule bears the same name and its ingress is written
   * over it. With `WantedStoresGenerated`, this is what the check leaves in the cluster.
   */
  lemma GeneratedIngressStored(s: Store, ms: Microservice, i: int)
    requires 0 <= i < |ms.spec.ingress|
    requires forall j | i < j < |ms.spec.ingress| :: ms.spec.ingress[j].name != ms.spec.ingress[i].name
    ensures var ing := IngressGen.GenerateIngresses(ms)[i];
      var stored := PutAll(s, IngressObjects(IngressGen.GenerateIngresses(ms)));
      Key(IngressKind, ing.meta.name) in stored && stored[Key(IngressKind, ing.meta.name)] == IngressObj(ing)
  {
    LaterKeysDiffer(ms, i);
    PutAllStores(s, IngressObjects(IngressGen.GenerateIngresses(ms)), i);
  }

  /** Rules named differently give ingresses stored under different keys. */
  lemma LaterKeysDiffer(ms: Microservice, i: int)
    requires 0 <= i < |ms.spec.ingress|
    requires forall j | i < j < |ms.spec.ingress| :: ms.spec.ingress[j].name != ms.spec.ingress[i].name
    ensures var gen := IngressGen.GenerateIngresses(ms);
      var objs := IngressObjects(gen);
      && objs[i] == IngressObj(gen[i]) && KeyOf(objs[i]) == Key(IngressKind, gen[i].meta.name)
      && forall j | i < j < |objs| :: KeyOf(objs[j]) != KeyOf(objs[i])
  {
    var gen := IngressGen.GenerateIngresses(ms);
    var objs := IngressObjects(gen);
    forall j | i < j < |objs| ensures KeyOf(objs[j]) != KeyOf(objs[i]) {
      assert KeyOf(objs[j]) == Key(IngressKind, IngressGen.IngressName(ms.name, ms.spec.ingress[j].name));
      assert KeyOf(objs[i]) == Key(IngressKind, IngressGen.IngressName(ms.name, ms.spec.ingress[i].name));
      IngressGen.IngressNameInjective(ms.name, ms.spec.ingress[j].name, ms.spec.ingress[i].name);
    }
  }

  lemma PutAllStoresEach(s: Store, gen: seq<Ingress>)
    ensures forall ing :: ing in gen ==> Key(IngressKind, ing.meta.name) in PutAll(s, IngressObjects(gen))
  {
    forall ing | ing in gen ensures Key(IngressKind, ing.meta.name) in PutAll(s, IngressObjects(gen)) {
      var i :| 0 <= i < |gen| && gen[i] == ing;
      PutAllStores(s, IngressObjects(gen), i);
    }
  }

  /**
   * The ensure loop stops at its first failure: when the call numbered `|w.trace| + 1 + j`
   * is the first to fail, no call after it is issued.
   */
  lemma WantedStopsAtFirstFailure(w: World, o: Oracle, ms: Microservice, listing: seq<string>, j: nat)
    requires !IngressUnwanted(ms) && j < 3 * |ms.spec.ingress|
    requires Quiet(o, |w.trace|, |w.trace| + 1 + j) && |w.trace| + 1 + j in o.faults
    ensures var r := CheckIngress(w, o, ms, listing);
      r.err.Some? && FailedAtLast(o, r) && |r.w.trace| == |w.trace| + 2 + j
  {
    var l := List(w, o, IngressKind);
    assert !Faults(o, w);
    var objs := IngressObjects(IngressGen.GenerateIngresses(ms));
    EnsureEachStopsAt(l.w, o, objs, j);
    assert CheckIngress(w, o, ms, listing) == EnsureGenerated(l.w, o, ms);
  }

  /**
   * `PutAll` leaves a key for the `i`-th object, and that object itself when no later
   * object has its key.
   */
  lemma {:induction false} PutAllStores(s: Store, objs: seq<Object>, i: nat)
    requires i < |objs|
    ensures KeyOf(objs[i]) in PutAll(s, objs)
    ensures (forall j | i < j < |objs| :: KeyOf(objs[j]) != KeyOf(objs[i])) ==> PutAll(s, objs)[KeyOf(objs[i])] == objs[i]
    decreases |objs|
  {
    var rest := objs[1..];
    if i == 0 {
      if forall j | 0 < j < |objs| :: KeyOf(objs[j]) != KeyOf(objs[0]) {
        forall j | 0 <= j < |rest| ensures KeyOf(rest[j]) != KeyOf(objs[0]) {
          assert rest[j] == objs[j + 1];
        }
      }
      PutAllKeeps(Put(s, objs[0]), rest, KeyOf(objs[0]));
    } else {
      if forall j | i < j < |objs| :: KeyOf(objs[j]) != KeyOf(objs[i]) {
        forall j | i - 1 < j < |rest| ensures KeyOf(rest[j]) != KeyOf(rest[i - 1]) {
          assert rest[j] == objs[j + 1];
        }
      }
      PutAllStores(Put(s, objs[0]), rest, i - 1);
    }
  }

  /** `PutAll` never removes a key, and keeps the object under a key none of `objs` has. */
  lemma {:induction false} PutAllKeeps(s: Store, objs: seq<Object>, k: Key)
    requires k in s
    ensures k in PutAll(s, objs)
    ensures (forall j | 0 <= j < |objs| :: KeyOf(objs[j]) != k) ==> PutAll(s, objs)[k] == s[k]
    decreases |objs|
  {
    if |objs| > 0 {
      if forall j | 0 <= j < |objs| :: KeyOf(objs[j]) != k {
        forall j | 0 <= j < |objs[1..]| ensures KeyOf(objs[1..][j]) != k {
          assert objs[1..][j] == objs[j + 1];
        }
      }
      PutAllKeeps(Put(s, objs[0]), objs[1..], k);
    }
  }

  /** The service spec with the cluster-assigned fields of `current` carried into `desired`. */
  type Merge = (ServiceSpec, ServiceSpec) -> ServiceSpec

  /** The service the update writes: the generated one with the stored one's assigned fields merged in. */
  function MergedService(desired: Service, current: Object, merge: Merge): (r: Service)
    ensures r.meta == desired.meta
    ensures current.ServiceObj? ==> r.spec == merge(desired.spec, current.service.spec)
  {
    if current.ServiceObj? then desired.(spec := merge(desired.spec, current.service.spec)) else desired
  }

  /**
   * One run of `checkService`: with no rules, delete the service named after the workload
   * (whether or not ingress is enabled); otherwise create if absent, read back, merge and
   * update, stopping at the first failing call.
   */
  function CheckService(w: World, o: Oracle, ms: Microservice, merge: Merge): (r: Step)
    ensures |ms.spec.ingress| < 1 ==>
      && r.w.trace == w.trace + [DeleteCall(Key(ServiceKind, ms.name))]
      && (r.err.None? <==> !Faults(o, w))
      && (r.err.None? ==> r.w.store == w.store - {Key(ServiceKind, ms.name)})
    ensures |ms.spec.ingress| >= 1 ==>
      && w.trace <= r.w.trace
      && r.w.trace[|w.trace|..] <= EnsureCalls(Key(ServiceKind, ms.name))
      && w.store.Keys <= r.w.store.Keys
      && (r.err.None? <==> Quiet(o, |w.trace|, |w.trace| + 3))
      && (r.err.Some? ==> |r.w.trace| - 1 in o.faults && r.err == Some(FaultAt(o, |r.w.trace| - 1)))
    ensures OnlyKeys(w.store, r.w.store, {Key(ServiceKind, ms.name)})
    ensures FailedAtLast(o, r)
    ensures o.faults == map[] ==> r.err.None?
  {
    var key := Key(ServiceKind, ms.name);
    if |ms.spec.ingress| < 1 then Delete(w, o, key)
    else
      var desired := ServiceGen.GenerateService(ms);
      var c := CreateIfAbsent(w, o, ServiceObj(desired));
      if c.err.Some? then c
      else
        var g := Get(c.w, o, key);
        if g.err.Some? then Step(g.w, g.err)
        else Update(g.w, o, ServiceObj(MergedService(desired, g.obj.value, merge)))
  }

  /**
   * With rules and no failing call, the stored service is the generated one with the
   * assigned fields merged in from what was stored before, or from itself when it was
   * just created.
   */
  lemma ServiceEnsured(w: World, o: Oracle, ms: Microservice, merge: Merge)
    requires |ms.spec.ingress| >= 1 && Keyed(w.store)
    requires Quiet(o, |w.trace|, |w.trace| + 3)
    ensures var key := Key(ServiceKind, ms.name);
      var desired := ServiceGen.GenerateService(ms);
      var before := if key in w.store then w.store[key].service.spec else desired.spec;
      CheckService(w, o, ms, merge).w.store[key] == ServiceObj(desired.(spec := merge(desired.spec, before)))
  {
    var key := Key(ServiceKind, ms.name);
    assert !Faults(o, w);
    assert |w.trace| + 1 !in o.faults && |w.trace| + 2 !in o.faults;
    if key in w.store {
      assert KeyOf(w.store[key]) == key;
    }
  }
}
