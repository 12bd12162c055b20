/**
 * One Reconcile pass of the legacy Deployment reconciler: fetch the object, mark it
 * Reconciling when its state is still empty, run the service check, and record the
 * outcome in its status. The legacy service check's own code is not part of this model:
 * it comes in as a parameter, whatever it does to the world.
 */
module LegacyController {
  import opened Common
  import opened Api
  import opened LegacyApi
  import opened Cluster
  import opened StatusMachine

  /** The legacy service check, applied to the world it runs in. */
  type ServiceCheck = World -> Step

  /** Where a legacy pass ended. */
  datatype LegacyStage =
    | Gone           // the object does not exist
    | ReadFailed     // reading the object failed
    | MarkFailed     // writing the Reconciling state failed
    | ServiceFailed  // the service check failed
    | StableFailed   // writing the Stable state failed
    | Settled        // the check passed and Stable was written

  datatype LegacyOutcome = LegacyOutcome(w: World, stage: LegacyStage, err: Option<Error>)

  function LegacyKey(name: string): Key
  {
    Key(LegacyDeploymentKind, name)
  }

  /** What the store holds under the object's key, if anything, is that legacy object. */
  predicate HoldsLegacy(s: Store, name: string)
  {
    LegacyKey(name) in s ==> s[LegacyKey(name)].LegacyObj? && s[LegacyKey(name)].legacy.name == name
  }

  /**
   * The part of a pass after the read (and the mark, if any): run the check; on failure
   * record Reconciling with the check's error text and return that error; otherwise write
   * Stable, falling back to Reconciling with the write's error text when that fails.
   * `s0` is the status as read, `mem` the in-memory status after the mark.
   */
  function Settle(w: World, o: Oracle, key: Key, s0: Status, mem: Status, check: ServiceCheck): (r: LegacyOutcome)
    ensures r.stage == ServiceFailed || r.stage == StableFailed || r.stage == Settled
    ensures r.stage == ServiceFailed <==> check(w).err.Some?
    ensures r.stage == ServiceFailed ==>
      && r.err == check(w).err
      && check(w).w.trace <= r.w.trace && |r.w.trace| <= |check(w).w.trace| + 1
      && StatusOnly(check(w).w.store, r.w.store, key)
    ensures r.err.None? <==> r.stage == Settled
    ensures r.stage != ServiceFailed ==> check(w).w.trace <= r.w.trace
  {
    var c := check(w);
    if c.err.Some? then
      var l := UpdateStatusReconcilingAndLogError(c.w, o, key, mem, s0, c.err);
      LegacyOutcome(l.w, ServiceFailed, c.err)
    else
      var st := UpdateStatus(c.w, o, key, mem, s0.(state := Stable));
      if st.err.Some? then
        var l := UpdateStatusReconcilingAndLogError(st.w, o, key, st.mem, s0.(state := Stable), st.err);
        LegacyOutcome(l.w, StableFailed, st.err)
      else LegacyOutcome(st.w, Settled, None)
  }

  /**
   * One legacy Reconcile pass for the object called `name`. A missing object ends the
   * pass successfully with nothing written; a failing read is returned with nothing
   * written; the Reconciling state is written only when the state is still empty, and a
   * failure of that write ends the pass.
   */
  function Reconcile(w: World, o: Oracle, name: string, check: ServiceCheck): (r: LegacyOutcome)
    requires HoldsLegacy(w.store, name)
    ensures r.stage == Gone <==> !Faults(o, w) && LegacyKey(name) !in w.store
    ensures r.stage == Gone ==> r == LegacyOutcome(Issue(w, GetCall(LegacyKey(name))), Gone, None)
    ensures r.stage == ReadFailed <==> Faults(o, w)
    ensures r.stage == ReadFailed ==> r == LegacyOutcome(Issue(w, GetCall(LegacyKey(name))), ReadFailed, Some(FaultAt(o, |w.trace|)))
    ensures r.stage == MarkFailed ==>
      && LegacyKey(name) in w.store && w.store[LegacyKey(name)].legacy.status.state == Unset
      && r.w.trace == w.trace + [GetCall(LegacyKey(name)), StatusCall(LegacyKey(name))]
      && r.w.store == w.store && r.err.Some?
    ensures r.err.None? <==> r.stage == Gone || r.stage == Settled
  {
    var key := LegacyKey(name);
    var g := Get(w, o, key);
    if Faults(o, w) then LegacyOutcome(g.w, ReadFailed, g.err)
    else if key !in w.store then LegacyOutcome(g.w, Gone, None)
    else
      var s0 := w.store[key].legacy.status;
      if s0.state == Unset then
        var u := UpdateStatusReconciling(g.w, o, key, s0, s0);
        if u.err.Some? then LegacyOutcome(u.w, MarkFailed, u.err)
        else Settle(u.w, o, key, s0, u.mem, check)
      else Settle(g.w, o, key, s0, s0, check)
  }

  /**
   * An object whose state is already set (Reconciling, Ready or Stable) is not marked:
   * the check runs right after the read. The Microservice reconciler, by contrast, marks
   * every state other than Reconciling.
   */
  lemma SetStateIsNotMarked(w: World, o: Oracle, name: string, check: ServiceCheck)
    requires HoldsLegacy(w.store, name) && !Faults(o, w) && LegacyKey(name) in w.store
    requires w.store[LegacyKey(name)].legacy.status.state != Unset
    ensures var s0 := w.store[LegacyKey(name)].legacy.status;
      Reconcile(w, o, name, check) == Settle(Issue(w, GetCall(LegacyKey(name))), o, LegacyKey(name), s0, s0, check)
  {
  }

  /**
   * An object with an empty state is marked before the check runs: the check sees the
   * stored status Reconciling, with the error text kept.
   */
  lemma EmptyStateIsMarked(w: World, o: Oracle, name: string, check: ServiceCheck)
    requires HoldsLegacy(w.store, name) && !Faults(o, w) && LegacyKey(name) in w.store
    requires w.store[LegacyKey(name)].legacy.status.state == Unset
    requires |w.trace| + 1 !in o.faults
    ensures var key := LegacyKey(name);
      var s0 := w.store[key].legacy.status;
      var marked := World(w.store[key := LegacyObj(w.store[key].legacy.(status := Status(Reconciling, s0.error)))],
                          w.trace + [GetCall(key), StatusCall(key)]);
      Reconcile(w, o, name, check) == Settle(marked, o, key, s0, Status(Reconciling, s0.error), check)
  {
    var key := LegacyKey(name);
    var g := Get(w, o, key);
    assert g.w.trace + [StatusCall(key)] == w.trace + [GetCall(key), StatusCall(key)];
  }

  /**
   * A failed check is recorded: when the object is still there with the in-memory status
   * and the status write goes through, the stored status is Reconciling with the check's
   * error text, and that error is what the pass returns.
   */
  lemma FailureIsRecorded(w: World, o: Oracle, key: Key, s0: Status, mem: Status, check: ServiceCheck)
    requires check(w).err.Some?
    requires StoredStatus(check(w).w.store, key) == Some(mem) && !Faults(o, check(w).w)
    ensures var r := Settle(w, o, key, s0, mem, check);
      && r.err == check(w).err
      && StoredStatus(r.w.store, key) == Some(Status(Reconciling, Message(check(w).err.value)))
  {
  }

  /** A settled pass leaves the Stable state stored, with the error text read at the start. */
  lemma SettledIsStable(w: World, o: Oracle, key: Key, s0: Status, mem: Status, check: ServiceCheck)
    requires StoredStatus(check(w).w.store, key) == Some(mem)
    requires Settle(w, o, key, s0, mem, check).stage == Settled
    ensures StoredStatus(Settle(w, o, key, s0, mem, check).w.store, key) == Some(Status(Stable, s0.error))
  {
  }

  /** A passing check with a working store always settles. */
  lemma QuietCheckSettles(w: World, o: Oracle, key: Key, s0: Status, mem: Status, check: ServiceCheck)
    requires check(w).err.None? && StoredStatus(check(w).w.store, key).Some? && !Faults(o, check(w).w)
    ensures Settle(w, o, key, s0, mem, check).stage == Settled
  {
  }
}
