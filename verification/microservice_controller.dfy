/**
 * One Reconcile pass of the Microservice reconciler: fetch the workload, mark it
 * Reconciling, run the six checks in their fixed order until the first error, and record
 * the outcome in the workload's status.
 */
module MicroserviceController {
  import opened Common
  import opened Api
  import opened Objects
  import opened Cluster
  import opened StatusMachine
  import IngressCheck
  import ServiceAccountCheck
  import DeploymentCheck
  import AutoscalingCheck
  import ServiceAccountGen
  import AutoscalingGen

  datatype CheckName =
    | ServiceAccountStep | SecretStep | DeploymentStep | AutoscalingStep | ServiceStep | IngressStep

  /** The order the checks run in. */
  const Order: seq<CheckName> :=
    [ServiceAccountStep, SecretStep, DeploymentStep, AutoscalingStep, ServiceStep, IngressStep]

  /** The one kind of child object each check may change. */
  function KindOf(c: CheckName): Kind
  {
    match c
    case ServiceAccountStep => ServiceAccountKind
    case SecretStep => SecretKind
    case DeploymentStep => DeploymentKind
    case AutoscalingStep => HpaKind
    case ServiceStep => ServiceKind
    case IngressStep => IngressKind
  }

  function KindsOf(cs: seq<CheckName>): set<Kind>
  {
    if |cs| == 0 then {} else KindsOf(cs[..|cs| - 1]) + {KindOf(cs[|cs| - 1])}
  }

  /**
   * What every check promises its caller: the calls it issued follow the earlier ones,
   * only objects of the kinds `ks` changed, a failure is the store error of its own last
   * call, and without store failures it succeeds.
   */
  ghost predicate Behaved(w: World, o: Oracle, ks: set<Kind>, r: Step)
  {
    && w.trace <= r.w.trace
    && OnlyKinds(w.store, r.w.store, ks)
    && FailedAtLast(o, r)
    && (o.faults == map[] ==> r.err.None?)
  }

  lemma OnlyKindsFromKeys(a: Store, b: Store, key: Key)
    requires OnlyKeys(a, b, {key})
    ensures OnlyKinds(a, b, {key.kind})
  {
    forall k: Key | k.kind != key.kind ensures Agree(a, b, k) {
      assert k !in {key};
    }
  }

  lemma DeletedBehaves(w: World, o: Oracle, key: Key, r: Step)
    requires Deleted(w, o, key, r)
    ensures Behaved(w, o, {key.kind}, r)
  {
    forall k: Key | k.kind != key.kind ensures Agree(w.store, r.w.store, k) {
      assert k != key;
    }
  }

  lemma EnsuredBehaves(w: World, o: Oracle, obj: Object, r: Step)
    requires Ensured(w, o, obj, r)
    ensures Behaved(w, o, {KeyOf(obj).kind}, r)
  {
    OnlyKindsFromKeys(w.store, r.w.store, KeyOf(obj));
  }

  /** One check as a step of the world. */
  function CheckStep(c: CheckName, w: World, o: Oracle, ms: Microservice, listing: seq<string>, merge: IngressCheck.Merge)
    : Step
  {
    match c
    case ServiceAccountStep => ServiceAccountCheck.CheckServiceAccount(w, o, ms)
    case SecretStep => ServiceAccountCheck.CheckServiceAccountSecret(w, o, ms)
    case DeploymentStep => DeploymentCheck.CheckDeployment(w, o, ms)
    case AutoscalingStep => AutoscalingCheck.CheckAutoscaling(w, o, ms)
    case ServiceStep => IngressCheck.CheckService(w, o, ms, merge)
    case IngressStep => IngressCheck.CheckIngress(w, o, ms, listing)
  }

  /** Runs one check; each check changes only its own kind. */
  method RunCheck(c: CheckName, w: World, o: Oracle, ms: Microservice, listing: seq<string>, merge: IngressCheck.Merge)
    returns (r: Step)
    ensures r == CheckStep(c, w, o, ms, listing, merge)
    ensures Behaved(w, o, {KindOf(c)}, r)
  {
    match c
    case ServiceAccountStep =>
      r := ServiceAccountCheck.CheckServiceAccount(w, o, ms);
      if ms.spec.disableServiceAccountCreation {
        DeletedBehaves(w, o, ServiceAccountCheck.AccountKey(ms), r);
      } else {
        EnsuredBehaves(w, o, ServiceAccountObj(ServiceAccountGen.GenerateServiceAccount(ms)), r);
      }
    case SecretStep =>
      r := ServiceAccountCheck.CheckServiceAccountSecret(w, o, ms);
      if ms.spec.disableServiceAccountCreation {
        DeletedBehaves(w, o, ServiceAccountCheck.SecretKey(ms), r);
      } else {
        EnsuredBehaves(w, o, SecretObj(ServiceAccountGen.GenerateServiceAccountSecret(ms)), r);
      }
    case DeploymentStep =>
      r := DeploymentCheck.CheckDeployment(w, o, ms);
      EnsuredBehaves(w, o, DeploymentCheck.DesiredDeployment(ms), r);
    case AutoscalingStep =>
      r := AutoscalingCheck.CheckAutoscaling(w, o, ms);
      if ms.spec.autoscaling.None? {
        DeletedBehaves(w, o, AutoscalingCheck.HpaKey(ms), r);
      } else if !AutoscalingCheck.Overridden(ms) {
        EnsuredBehaves(w, o, HpaObj(AutoscalingGen.GenerateAutoscaling(ms).value), r);
      }
    case ServiceStep =>
      r := IngressCheck.CheckService(w, o, ms, merge);
      OnlyKindsFromKeys(w.store, r.w.store, Key(ServiceKind, ms.name));
    case IngressStep =>
      r := IngressCheck.CheckIngress(w, o, ms, listing);
  }

  /**
   * The checks `ran` ran one after another, check i from the world `ws[i]` to the world
   * `ws[i + 1]`; every one but the last passed, and the last ended with `err`.
   */
  ghost predicate Stepped(o: Oracle, ms: Microservice, listing: seq<string>, merge: IngressCheck.Merge,
                          ran: seq<CheckName>, ws: seq<World>, err: Option<Error>)
  {
    && |ws| == |ran| + 1
    && (forall i {:trigger CheckStep(ran[i], ws[i], o, ms, listing, merge)} | 0 <= i < |ran| ::
          CheckStep(ran[i], ws[i], o, ms, listing, merge) == Step(ws[i + 1], if i == |ran| - 1 then err else None))
  }

  /** The world after some checks, the checks that ran (the failing one last), and the error. */
  datatype Checked = Checked(w: World, ran: seq<CheckName>, err: Option<Error>)

  /**
   * Runs `todo` in order; the first error stops the rest. `ws` are the worlds between the
   * checks that ran.
   */
  method RunChecks(w: World, o: Oracle, ms: Microservice, listing: seq<string>, merge: IngressCheck.Merge,
                   todo: seq<CheckName>) returns (r: Checked, ghost ws: seq<World>)
    ensures w.trace <= r.w.trace
    ensures r.ran <= todo
    ensures r.err.None? ==> r.ran == todo
    ensures r.err.Some? ==>
      && |r.ran| > 0 && |r.w.trace| > 0 && |r.w.trace| - 1 in o.faults
      && r.err == Some(FaultAt(o, |r.w.trace| - 1))
    ensures Stepped(o, ms, listing, merge, r.ran, ws, r.err) && ws[0] == w && ws[|r.ran|] == r.w
    ensures OnlyKinds(w.store, r.w.store, KindsOf(r.ran))
    ensures o.faults == map[] ==> r.err.None?
  {
    var cur := w;
    var i := 0;
    ws := [w];
    while i < |todo|
      invariant 0 <= i <= |todo|
      invariant w.trace <= cur.trace
      invariant OnlyKinds(w.store, cur.store, KindsOf(todo[..i]))
      invariant Stepped(o, ms, listing, merge, todo[..i], ws, None) && ws[0] == w && ws[i] == cur
    {
      var s := Advance(w, o, ms, listing, merge, todo[..i], ws, cur, todo[i]);
      assert todo[..i] + [todo[i]] == todo[..i + 1];
      ws := ws + [s.w];
      if s.err.Some? {
        return Checked(s.w, todo[..i + 1], s.err), ws;
      }
      cur := s.w;
      i := i + 1;
    }
    assert todo[..i] == todo;
    return Checked(cur, todo, None), ws;
  }

  /** Runs check `c` after the passing run `ran`, which ended in `cur`. */
  method Advance(w: World, o: Oracle, ms: Microservice, listing: seq<string>, merge: IngressCheck.Merge,
                 ran: seq<CheckName>, ghost ws: seq<World>, cur: World, c: CheckName) returns (s: Step)
    requires Stepped(o, ms, listing, merge, ran, ws, None) && ws[|ran|] == cur
    requires w.trace <= cur.trace && OnlyKinds(w.store, cur.store, KindsOf(ran))
    ensures Stepped(o, ms, listing, merge, ran + [c], ws + [s.w], s.err)
    ensures w.trace <= s.w.trace && OnlyKinds(w.store, s.w.store, KindsOf(ran + [c]))
    ensures FailedAtLast(o, s) && (o.faults == map[] ==> s.err.None?)
  {
    s := RunCheck(c, cur, o, ms, listing, merge);
    assert (ran + [c])[..|ran|] == ran;
    OnlyKindsTrans(w.store, cur.store, s.w.store, KindsOf(ran), {KindOf(c)}, KindsOf(ran + [c]));
    SteppedExtend(o, ms, listing, merge, ran, ws, c, s);
  }

  /** A passing run followed by one more check is a run ending with that check's outcome. */
  lemma SteppedExtend(o: Oracle, ms: Microservice, listing: seq<string>, merge: IngressCheck.Merge,
                      ran: seq<CheckName>, ws: seq<World>, c: CheckName, s: Step)
    requires Stepped(o, ms, listing, merge, ran, ws, None)
    requires s == CheckStep(c, ws[|ran|], o, ms, listing, merge)
    ensures Stepped(o, ms, listing, merge, ran + [c], ws + [s.w], s.err)
  {
    var ran', ws' := ran + [c], ws + [s.w];
    forall i | 0 <= i < |ran'|
      ensures CheckStep(ran'[i], ws'[i], o, ms, listing, merge) == Step(ws'[i + 1], if i == |ran'| - 1 then s.err else None)
    {
      if i < |ran| {
        assert ran'[i] == ran[i] && ws'[i] == ws[i] && ws'[i + 1] == ws[i + 1];
      }
    }
  }

  /** Where a pass ended. */
  datatype Stage =
    | Absent                                 // the workload does not exist
    | NotFetched                             // reading the workload failed
    | MarkFailed                             // writing the Reconciling state failed
    | CheckFailed(check: CheckName, at: nat) // a check failed at call number `at`
    | StableFailed                           // writing the Stable state failed
    | Done                                   // every check passed and Stable was written

  /** The world after a pass, where it ended, the checks that ran and the error it returns. */
  datatype Outcome = Outcome(w: World, stage: Stage, ran: seq<CheckName>, err: Option<Error>)

  function WorkloadKey(name: string): Key
  {
    Key(MicroserviceKind, name)
  }

  /** What the store holds under the workload's key, if anything, is that workload. */
  predicate HoldsWorkload(s: Store, name: string)
  {
    WorkloadKey(name) in s ==> s[WorkloadKey(name)].MicroserviceObj? && s[WorkloadKey(name)].ms.name == name
  }

  /** A store that keeps every object under its own kind and name holds every workload properly. */
  lemma KeyedHoldsWorkload(s: Store, name: string)
    requires Keyed(s)
    ensures HoldsWorkload(s, name)
  {
    if WorkloadKey(name) in s {
      assert KeyOf(s[WorkloadKey(name)]) == WorkloadKey(name);
    }
  }

  /**
   * The end of a pass whose checks all passed: write Stable (keeping the error text); if
   * that write fails, fall back to Reconciling with the failure's text, and return the
   * failure.
   */
  function FinishPass(w: World, o: Oracle, key: Key, s0: Status, mem: Status): (r: StatusWrite)
    ensures w.trace <= r.w.trace
    ensures StatusOnly(w.store, r.w.store, key)
    ensures StoredStatus(w.store, key) == Some(mem) && mem.state != Stable ==>
      && (r.err.None? <==> !Faults(o, w))
      && (r.err.None? ==>
            r.w.trace == w.trace + [StatusCall(key)] && StoredStatus(r.w.store, key) == Some(Status(Stable, s0.error)))
      && (r.err.Some? ==>
            && r.w.trace == w.trace + [StatusCall(key), StatusCall(key)]
            && r.err == Some(StatusWriteFailed(key.kind, FaultAt(o, |w.trace|)))
            && LoggedAs(o, r.w, key, Status(Reconciling, Message(r.err.value)), mem))
  {
    var st := UpdateStatus(w, o, key, mem, s0.(state := Stable));
    if st.err.Some? then
      var l := UpdateStatusReconcilingAndLogError(st.w, o, key, st.mem, s0.(state := Stable), st.err);
      StatusOnlyTrans(w.store, st.w.store, l.w.store, key);
      StatusWrite(l.w, l.mem, st.err)
    else st
  }

  /** Checks of `ran`, then status writes: only those kinds and the workload changed. */
  lemma PassFrame(a: Store, b: Store, c: Store, ran: seq<CheckName>, key: Key)
    requires OnlyKinds(a, b, KindsOf(ran)) && StatusOnly(b, c, key) && key.kind == MicroserviceKind
    ensures OnlyKinds(a, c, KindsOf(ran) + {MicroserviceKind})
  {
    StatusOnlyWorkload(b, c, key);
    OnlyKindsTrans(a, b, c, KindsOf(ran), {MicroserviceKind}, KindsOf(ran) + {MicroserviceKind});
  }

  /** Every kind a run of checks may change is one of the kinds those checks own. */
  lemma {:induction false} KindsOfMember(cs: seq<CheckName>, k: Kind)
    requires k in KindsOf(cs)
    ensures exists c :: c in cs && KindOf(c) == k
  {
    var last := cs[|cs| - 1];
    if k != KindOf(last) {
      KindsOfMember(cs[..|cs| - 1], k);
    }
  }

  /** No check touches a Microservice object. */
  lemma ChecksNeverTouchWorkload(cs: seq<CheckName>)
    ensures MicroserviceKind !in KindsOf(cs)
  {
    if MicroserviceKind in KindsOf(cs) {
      KindsOfMember(cs, MicroserviceKind);
    }
  }

  lemma AgreeOutside(a: Store, b: Store, ks: set<Kind>, k: Key)
    requires OnlyKinds(a, b, ks) && k.kind !in ks
    ensures Agree(a, b, k)
  {
  }

  /** A status write changes only the workload object. */
  lemma StatusOnlyWorkload(a: Store, b: Store, key: Key)
    requires key.kind == MicroserviceKind
    requires StatusOnly(a, b, key)
    ensures OnlyKinds(a, b, {MicroserviceKind})
  {
    forall k: Key | k.kind != MicroserviceKind ensures Agree(a, b, k) {
      assert k != key;
    }
  }

  /**
   * How a pass that reached the checks ended, for a workload whose status read `s0`: the
   * checks of `r.ran` ran in order from `ws[0]`, and afterwards only status writes of the
   * workload were issued. A failing check's store error (that of its own last call) is
   * returned, and the error logger records it with the Reconciling state; a failed Stable
   * write is returned and recorded the same way; a completed pass stores Stable with the
   * error text read at the start.
   */
  ghost predicate Recorded(o: Oracle, ms: Microservice, listing: seq<string>, merge: IngressCheck.Merge, key: Key,
                           s0: Status, r: Outcome, ws: seq<World>)
  {
    && Stepped(o, ms, listing, merge, r.ran, ws, if r.stage.CheckFailed? then r.err else None)
    && ws[|r.ran|].trace <= r.w.trace && StatusOnly(ws[|r.ran|].store, r.w.store, key)
    && (r.stage.CheckFailed? ==>
          && |ws[|r.ran|].trace| == r.stage.at + 1 && r.stage.at in o.faults
          && r.err == Some(FaultAt(o, r.stage.at))
          && |r.w.trace| <= r.stage.at + 2
          && LoggedAs(o, r.w, key, Status(Reconciling, Message(r.err.value)), Status(Reconciling, s0.error)))
    && (r.stage == StableFailed ==>
          && r.w.trace == ws[|r.ran|].trace + [StatusCall(key), StatusCall(key)]
          && |ws[|r.ran|].trace| in o.faults
          && r.err == Some(StatusWriteFailed(MicroserviceKind, FaultAt(o, |ws[|r.ran|].trace|)))
          && LoggedAs(o, r.w, key, Status(Reconciling, Message(r.err.value)), Status(Reconciling, s0.error)))
    && (r.stage == Done ==>
          r.w.trace == ws[|r.ran|].trace + [StatusCall(key)]
          && StoredStatus(r.w.store, key) == Some(Status(Stable, s0.error)))
  }

  /**
   * The part of a pass after the workload was read and, if needed, marked Reconciling:
   * the store holds the status `s0` as read with the Reconciling state. A failing check is
   * recorded as Reconciling with its error text; otherwise Stable is written.
   */
  method CheckAndRecord(w: World, o: Oracle, ms: Microservice, s0: Status,
                        listing: seq<string>, merge: IngressCheck.Merge) returns (r: Outcome, ghost ws: seq<World>)
    requires StoredStatus(w.store, WorkloadKey(ms.name)) == Some(Status(Reconciling, s0.error))
    ensures w.trace <= r.w.trace
    ensures r.stage.CheckFailed? || r.stage == StableFailed || r.stage == Done
    ensures r.stage.CheckFailed? ==> |r.ran| > 0 && r.ran[|r.ran| - 1] == r.stage.check && r.ran <= Order
    ensures !r.stage.CheckFailed? ==> r.ran == Order
    ensures r.err.None? <==> r.stage == Done
    ensures OnlyKinds(w.store, r.w.store, KindsOf(r.ran) + {MicroserviceKind})
    ensures |ws| > 0 && ws[0] == w && Recorded(o, ms, listing, merge, WorkloadKey(ms.name), s0, r, ws)
  {
    var key := WorkloadKey(ms.name);
    var mem := Status(Reconciling, s0.error);
    var c;
    c, ws := RunChecks(w, o, ms, listing, merge, Order);
    ChecksNeverTouchWorkload(c.ran);
    AgreeOutside(w.store, c.w.store, KindsOf(c.ran), key);
    assert StoredStatus(c.w.store, key) == Some(mem);
    if c.err.Some? {
      var l := UpdateStatusReconcilingAndLogError(c.w, o, key, mem, s0, c.err);
      PassFrame(w.store, c.w.store, l.w.store, c.ran, key);
      r := Outcome(l.w, CheckFailed(c.ran[|c.ran| - 1], |c.w.trace| - 1), c.ran, c.err);
    } else {
      var f := FinishPass(c.w, o, key, s0, mem);
      PassFrame(w.store, c.w.store, f.w.store, c.ran, key);
      r := Outcome(f.w, if f.err.Some? then StableFailed else Done, c.ran, f.err);
    }
  }

  /**
   * The part of a pass after the workload `ms` was read: write the Reconciling state unless
   * it is already set, then check and record. A failed mark ends the pass at once. `ws[0]`
   * is the world the checks start from: the store as read with Reconciling written.
   */
  method MarkAndCheck(w: World, o: Oracle, ms: Microservice, listing: seq<string>, merge: IngressCheck.Merge)
    returns (r: Outcome, ghost ws: seq<World>)
    requires StoredStatus(w.store, WorkloadKey(ms.name)) == Some(ms.status)
    ensures w.trace <= r.w.trace
    ensures ms.status.state != Reconciling ==> w.trace + [StatusCall(WorkloadKey(ms.name))] <= r.w.trace
    ensures r.stage == MarkFailed ==>
      && ms.status.state != Reconciling && Faults(o, w)
      && r.w.trace == w.trace + [StatusCall(WorkloadKey(ms.name))] && r.w.store == w.store && r.ran == []
      && r.err == Some(StatusWriteFailed(MicroserviceKind, FaultAt(o, |w.trace|)))
    ensures r.stage.CheckFailed? || r.stage == StableFailed || r.stage == Done || r.stage == MarkFailed
    ensures r.ran <= Order
    ensures r.stage.CheckFailed? ==> |r.ran| > 0 && r.ran[|r.ran| - 1] == r.stage.check
    ensures r.stage == Done || r.stage == StableFailed ==> r.ran == Order
    ensures r.err.None? <==> r.stage == Done
    ensures OnlyKinds(w.store, r.w.store, KindsOf(r.ran) + {MicroserviceKind})
    ensures r.stage != MarkFailed ==>
      && |ws| > 0
      && ws[0].trace == (if ms.status.state != Reconciling then w.trace + [StatusCall(WorkloadKey(ms.name))] else w.trace)
      && StatusOnly(w.store, ws[0].store, WorkloadKey(ms.name))
      && StoredStatus(ws[0].store, WorkloadKey(ms.name)) == Some(Status(Reconciling, ms.status.error))
      && Recorded(o, ms, listing, merge, WorkloadKey(ms.name), ms.status, r, ws)
  {
    var key := WorkloadKey(ms.name);
    var s0 := ms.status;
    if s0.state != Reconciling {
      var u := UpdateStatusReconciling(w, o, key, s0, s0);
      if u.err.Some? {
        return Outcome(u.w, MarkFailed, [], u.err), [];
      }
      StatusOnlyWorkload(w.store, u.w.store, key);
      r, ws := CheckAndRecord(u.w, o, ms, s0, listing, merge);
      OnlyKindsTrans(w.store, u.w.store, r.w.store, {MicroserviceKind}, KindsOf(r.ran) + {MicroserviceKind},
                     KindsOf(r.ran) + {MicroserviceKind});
    } else {
      r, ws := CheckAndRecord(w, o, ms, s0, listing, merge);
    }
  }

  /**
   * One Reconcile pass for the workload called `name`. A missing workload ends the pass
   * successfully with nothing written; a failing read is returned with nothing written.
   * Otherwise the Reconciling state is written (unless already set) before any check
   * runs, and a failed mark ends the pass with nothing else issued. The checks run in
   * their fixed order until the first failure, which is returned and recorded with the
   * Reconciling state; only a pass whose checks all passed ends Stable, keeping the error
   * text the status held before.
   */
  method Reconcile(w: World, o: Oracle, name: string, listing: seq<string>, merge: IngressCheck.Merge)
    returns (r: Outcome, ghost ws: seq<World>)
    requires HoldsWorkload(w.store, name)
    ensures w.trace + [GetCall(WorkloadKey(name))] <= r.w.trace
    ensures r.stage == Absent <==> !Faults(o, w) && WorkloadKey(name) !in w.store
    ensures r.stage == Absent ==> r.err.None? && r.w == Issue(w, GetCall(WorkloadKey(name)))
    ensures r.stage == NotFetched <==> Faults(o, w)
    ensures r.stage == NotFetched ==> r.err == Some(FaultAt(o, |w.trace|)) && r.w.store == w.store
    ensures !Faults(o, w) && WorkloadKey(name) in w.store && w.store[WorkloadKey(name)].ms.status.state != Reconciling ==>
      w.trace + [GetCall(WorkloadKey(name)), StatusCall(WorkloadKey(name))] <= r.w.trace
    ensures r.stage == MarkFailed ==>
      && r.w.trace == w.trace + [GetCall(WorkloadKey(name)), StatusCall(WorkloadKey(name))] && r.w.store == w.store
      && |w.trace| + 1 in o.faults
      && r.err == Some(StatusWriteFailed(MicroserviceKind, FaultAt(o, |w.trace| + 1)))
    ensures r.ran <= Order
    ensures r.stage.CheckFailed? ==> |r.ran| > 0 && r.ran[|r.ran| - 1] == r.stage.check
    ensures r.stage == Done || r.stage == StableFailed ==> r.ran == Order
    ensures r.err.None? <==> r.stage == Absent || r.stage == Done
    ensures OnlyKinds(w.store, r.w.store, KindsOf(r.ran) + {MicroserviceKind})
    ensures r.stage.CheckFailed? || r.stage == StableFailed || r.stage == Done ==>
      && WorkloadKey(name) in w.store
      && var ms := w.store[WorkloadKey(name)].ms;
      && |ws| > 0 && StatusOnly(w.store, ws[0].store, WorkloadKey(name))
      && StoredStatus(ws[0].store, WorkloadKey(name)) == Some(Status(Reconciling, ms.status.error))
      && Recorded(o, ms, listing, merge, WorkloadKey(name), ms.status, r, ws)
  {
    var key := WorkloadKey(name);
    var g := Get(w, o, key);
    if Faults(o, w) {
      return Outcome(g.w, NotFetched, [], g.err), [];
    }
    if key !in w.store {
      return Outcome(g.w, Absent, [], None), [];
    }
    var ms := w.store[key].ms;
    r, ws := MarkAndCheck(g.w, o, ms, listing, merge);
    assert g.w.trace + [StatusCall(key)] == w.trace + [GetCall(key), StatusCall(key)];
  }
}
