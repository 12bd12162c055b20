/**
 * One Reconcile pass of the schedule supervisor. A definition lists calendar entries for
 * one workload; the supervisor keeps one scheduler registration per entry and records
 * the registration ids in the definition's status, so that the next pass (or the
 * deletion of the definition) can remove them again. A finalizer keeps a definition
 * under deletion around until its registrations are removed.
 */
module ScheduledController {
  import opened Common
  import opened Api
  import opened Cluster
  import opened Cron
  import opened StatusMachine

  /** Adds the finalizer unless it is already there. */
  function AddFinalizer(fs: seq<string>): (r: seq<string>)
    ensures Finalizer in r
    ensures Finalizer in fs ==> r == fs
    ensures Finalizer !in fs ==> |r| == |fs| + 1 && r[..|fs|] == fs
  {
    if Finalizer in fs then fs else fs + [Finalizer]
  }

  /** Drops every copy of the finalizer and keeps the others in order. */
  function RemoveFinalizer(fs: seq<string>): (r: seq<string>)
    ensures Finalizer !in r
    ensures forall x | x in fs && x != Finalizer :: x in r
    ensures forall x | x in r :: x in fs
    ensures |r| <= |fs|
  {
    if |fs| == 0 then []
    else if fs[0] == Finalizer then RemoveFinalizer(fs[1..])
    else [fs[0]] + RemoveFinalizer(fs[1..])
  }

  /** The status helper of the supervisor, assumed to behave like the workload's one. */
  datatype SaWrite = SaWrite(w: World, mem: ScheduledAutoscalerStatus, err: Option<Error>)

  /** Writes `next` unless the in-memory status already equals it. */
  function UpdateSaStatus(w: World, o: Oracle, key: Key, mem: ScheduledAutoscalerStatus, next: ScheduledAutoscalerStatus)
    : (r: SaWrite)
    ensures r.mem == next
    ensures mem == next ==> r.w == w && r.err.None?
    ensures mem != next ==> r.w.trace == w.trace + [StatusCall(key)]
    ensures mem != next && !Faults(o, w) && StoredSaStatus(w.store, key).Some? ==>
      r.err.None? && StoredSaStatus(r.w.store, key) == Some(next)
    ensures mem != next && Faults(o, w) ==>
      r.err == Some(StatusWriteFailed(key.kind, FaultAt(o, |w.trace|))) && r.w.store == w.store
    ensures mem != next && !Faults(o, w) && StoredSaStatus(w.store, key).None? ==>
      r.err == Some(StatusWriteFailed(key.kind, NotFound(key))) && r.w.store == w.store
    ensures StatusOnly(w.store, r.w.store, key)
  {
    if mem == next then SaWrite(w, mem, None)
    else
      var s := WriteSaStatus(w, o, key, next);
      SaWrite(s.w, next, if s.err.Some? then Some(StatusWriteFailed(key.kind, s.err.value)) else None)
  }

  /** Records the error's text and the Reconciling state; a failure of that write is swallowed. */
  function SaLogError(w: World, o: Oracle, key: Key, mem: ScheduledAutoscalerStatus, s: ScheduledAutoscalerStatus, e: Error)
    : (r: SaWrite)
    ensures r.err.None?
    ensures r.mem == s.(state := Reconciling, error := Message(e))
    ensures mem == r.mem ==> r.w == w
    ensures mem != r.mem ==> r.w.trace == w.trace + [StatusCall(key)]
    ensures StatusOnly(w.store, r.w.store, key)
    ensures !Faults(o, w) && StoredSaStatus(w.store, key) == Some(mem) ==>
      StoredSaStatus(r.w.store, key) == Some(s.(state := Reconciling, error := Message(e)))
    ensures Faults(o, w) ==> r.w.store == w.store
  {
    var u := UpdateSaStatus(w, o, key, mem, s.(state := Reconciling, error := Message(e)));
    SaWrite(u.w, u.mem, None)
  }

  /** Where a supervisor pass ended. */
  datatype SaStage =
    | SaGone              // the definition does not exist
    | SaReadFailed        // reading the definition failed
    | FinalizerAddFailed  // persisting the added finalizer failed
    | Released            // under deletion without the finalizer: nothing to do
    | Finalized           // under deletion: registrations removed and finalizer dropped
    | FinalizeFailed      // under deletion: registrations removed, dropping the finalizer failed
    | SaMarkFailed        // writing the Reconciling state failed
    | RegisterFailed      // the scheduler rejected an entry
    | SaStableFailed      // writing the Stable state failed
    | IdsFailed           // writing the new registration ids failed
    | Scheduled           // every entry registered and the ids recorded

  datatype SaOutcome = SaOutcome(w: World, sched: Scheduler, stage: SaStage, err: Option<Error>)

  /** The stages a pass reaches once the definition is marked Reconciling. */
  predicate Registering(stage: SaStage)
  {
    stage == RegisterFailed || stage == SaStableFailed || stage == IdsFailed || stage == Scheduled
  }

  /** The ids a registration pass hands out when the scheduler's last id was `last`: last+1, last+2, ... */
  predicate FreshRun(ids: seq<int>, last: nat)
  {
    forall i | 0 <= i < |ids| :: ids[i] == last + 1 + i
  }

  /**
   * The scheduler after a normal pass of the definition `owner` with `spec`, whose status
   * recorded `recorded`: none of the recorded ids is registered any more unless it was
   * handed out again; every other earlier entry is kept; and the new ids run in entry
   * order, one per registered entry.
   */
  predicate Reregistered(before: Scheduler, after: Scheduler, recorded: seq<int>, owner: string, spec: ScheduledAutoscalerSpec)
  {
    && before.lastId <= after.lastId <= before.lastId + |spec.schedules|
    && (forall k | k in after.entries && !(before.lastId < k <= after.lastId) ::
          k in before.entries && after.entries[k] == before.entries[k] && k !in recorded)
    && (forall k | k in before.entries && k <= before.lastId && k !in recorded ::
          k in after.entries && after.entries[k] == before.entries[k])
    && (forall k | before.lastId < k <= after.lastId ::
          k in after.entries
          && after.entries[k] == RegistrationOf(owner, spec.microserviceName, spec.schedules[k - before.lastId - 1]))
  }

  /** A normal pass keeps every registered id one the scheduler handed out. */
  lemma ReregisteredKeepsIssued(before: Scheduler, after: Scheduler, recorded: seq<int>, owner: string,
                                spec: ScheduledAutoscalerSpec)
    requires Issued(before) && Reregistered(before, after, recorded, owner, spec)
    ensures Issued(after)
  {
  }

  /**
   * The ids a fully recorded pass stored are all gone after the next normal pass, which
   * removes them before it registers anything: a definition that keeps being recorded
   * never piles up registrations.
   */
  lemma NextPassRemovesRecorded(s0: Scheduler, s1: Scheduler, s2: Scheduler, ids: seq<int>, owner: string,
                                spec: ScheduledAutoscalerSpec, spec2: ScheduledAutoscalerSpec)
    requires FreshRun(ids, s0.lastId) && s0.lastId + |ids| <= s1.lastId
    requires Reregistered(s1, s2, ids, owner, spec2)
    ensures forall id | id in ids :: id !in s2.entries
  {
    forall id | id in ids ensures id !in s2.entries {
      var i :| 0 <= i < |ids| && ids[i] == id;
      assert id <= s1.lastId;
    }
  }

  /**
   * A pass stopped by a rejected entry keeps the ids recorded before it, so the entries it
   * did register are not among the ids the next pass removes: they outlive that pass.
   */
  lemma RejectedPassLeaks(s0: Scheduler, s1: Scheduler, s2: Scheduler, recorded: seq<int>, owner: string,
                          spec: ScheduledAutoscalerSpec, spec2: ScheduledAutoscalerSpec)
    requires Reregistered(s0, s1, recorded, owner, spec)
    requires Reregistered(s1, s2, recorded, owner, spec2)
    ensures forall k | s0.lastId < k <= s1.lastId && k !in recorded ::
      k in s2.entries && s2.entries[k] == RegistrationOf(owner, spec.microserviceName, spec.schedules[k - s0.lastId - 1])
  {
  }

  /** Some entry of `spec` has an expression the scheduler rejects. */
  predicate HasRejected(spec: ScheduledAutoscalerSpec, rejected: set<string>)
  {
    exists i | 0 <= i < |spec.schedules| :: spec.schedules[i].cron in rejected
  }

  /** Entry `j` is the first entry of `spec` whose expression the scheduler rejects. */
  predicate FirstRejected(spec: ScheduledAutoscalerSpec, rejected: set<string>, j: int)
  {
    && 0 <= j < |spec.schedules| && spec.schedules[j].cron in rejected
    && forall i | 0 <= i < j :: spec.schedules[i].cron !in rejected
  }

  /** The ids last+1, ..., last+n. */
  function FreshIds(last: nat, n: nat): (r: seq<int>)
    ensures |r| == n && FreshRun(r, last)
  {
    seq(n, i => last + 1 + i)
  }

  lemma FreshRunIsFreshIds(ids: seq<int>, last: nat)
    requires FreshRun(ids, last)
    ensures ids == FreshIds(last, |ids|)
  {
  }

  /**
   * What the supervisor's error logger leaves behind in `w`: the status `next` it was asked
   * to write, or, when the last call issued (its write) failed, the status `kept` stored
   * before.
   */
  predicate SaLoggedAs(o: Oracle, w: World, key: Key, next: ScheduledAutoscalerStatus, kept: ScheduledAutoscalerStatus)
  {
    || StoredSaStatus(w.store, key) == Some(next)
    || (|w.trace| > 0 && |w.trace| - 1 in o.faults && StoredSaStatus(w.store, key) == Some(kept))
  }

  /**
   * What a registering stage with error `err` leaves in the stored status of the definition
   * whose status read `s0`, when the new ids are the `n` ids after `last`. A fully recorded
   * pass stores Stable with the new ids and the old error text. A rejected entry or a
   * failed Stable write is recorded by the logger as Reconciling with the error's text and
   * the old ids. A failed id write is recorded by the logger as Reconciling with the
   * error's text and the new ids, since the logger is handed the status that already
   * holds them; if the logger's write fails too, Stable with the old ids stays. Both
   * failed writes return the store error of the write, which is the call before the
   * logger's.
   */
  predicate RecordedAs(stage: SaStage, o: Oracle, w: World, key: Key, s0: ScheduledAutoscalerStatus,
                       last: nat, n: nat, err: Option<Error>)
  {
    && (stage == Scheduled ==>
          err.None? && StoredSaStatus(w.store, key) == Some(s0.(state := Stable, scheduledCrons := FreshIds(last, n))))
    && (stage == RegisterFailed || stage == SaStableFailed ==>
          err.Some?
          && SaLoggedAs(o, w, key, s0.(state := Reconciling, error := Message(err.value)), s0.(state := Reconciling)))
    && (stage == IdsFailed ==>
          err.Some?
          && SaLoggedAs(o, w, key, s0.(state := Reconciling, error := Message(err.value), scheduledCrons := FreshIds(last, n)),
                        s0.(state := Stable)))
    && (stage == SaStableFailed || stage == IdsFailed ==>
          && |w.trace| >= 2 && |w.trace| - 2 in o.faults
          && err == Some(StatusWriteFailed(key.kind, FaultAt(o, |w.trace| - 2))))
  }

  /** Where the recording of a pass ended. */
  datatype Recorded = Recorded(w: World, stage: SaStage, err: Option<Error>)

  /**
   * Records a pass whose entries were all registered, on a store that holds the status
   * `s0` as read with the Reconciling state: first the Stable state (old ids), then the
   * new ids, as two separate writes. A failure of either write goes through the error
   * logger, which writes the status it was given with the Reconciling state and the
   * error text.
   */
  method Record(w: World, o: Oracle, key: Key, s0: ScheduledAutoscalerStatus, ids: seq<int>, last: nat)
    returns (r: Recorded)
    requires StoredSaStatus(w.store, key) == Some(s0.(state := Reconciling))
    requires FreshRun(ids, last)
    ensures r.stage == SaStableFailed || r.stage == IdsFailed || r.stage == Scheduled
    ensures r.err.None? <==> r.stage == Scheduled
    ensures StatusOnly(w.store, r.w.store, key)
    ensures r.stage == SaStableFailed <==> Faults(o, w)
    ensures r.stage == SaStableFailed ==> r.w.trace == w.trace + [StatusCall(key), StatusCall(key)]
    ensures r.stage == IdsFailed ==> r.w.trace == w.trace + [StatusCall(key), StatusCall(key), StatusCall(key)]
    ensures r.stage == Scheduled ==>
      r.w.trace == w.trace + [StatusCall(key)] + (if ids == s0.scheduledCrons then [] else [StatusCall(key)])
    ensures RecordedAs(r.stage, o, r.w, key, s0, last, |ids|, r.err)
  {
    FreshRunIsFreshIds(ids, last);
    var mem := s0.(state := Reconciling);
    var stable := s0.(state := Stable);
    var st := UpdateSaStatus(w, o, key, mem, stable);
    if st.err.Some? {
      var l := SaLogError(st.w, o, key, st.mem, stable, st.err.value);
      StatusOnlyTrans(w.store, st.w.store, l.w.store, key);
      return Recorded(l.w, SaStableFailed, st.err);
    }
    assert StoredSaStatus(st.w.store, key) == Some(stable);
    var withIds := stable.(scheduledCrons := ids);
    var iw := UpdateSaStatus(st.w, o, key, st.mem, withIds);
    StatusOnlyTrans(w.store, st.w.store, iw.w.store, key);
    if iw.err.Some? {
      var l := SaLogError(iw.w, o, key, iw.mem, withIds, iw.err.value);
      StatusOnlyTrans(w.store, iw.w.store, l.w.store, key);
      return Recorded(l.w, IdsFailed, iw.err);
    }
    return Recorded(iw.w, Scheduled, None);
  }

  /**
   * Removing `recorded` and then registering entries on the cleared scheduler, stated by
   * what each of the two steps keeps: the result re-registers the definition.
   */
  lemma ReregisteredFrom(before: Scheduler, cleared: Scheduler, after: Scheduler, recorded: seq<int>, owner: string,
                         spec: ScheduledAutoscalerSpec)
    requires cleared.lastId == before.lastId
    requires forall k | k in cleared.entries :: k in before.entries && cleared.entries[k] == before.entries[k]
    requires forall id | id in recorded :: id !in cleared.entries
    requires forall k | k in before.entries && k !in recorded :: k in cleared.entries
    requires before.lastId <= after.lastId <= before.lastId + |spec.schedules|
    requires forall k | k in after.entries && !(cleared.lastId < k <= after.lastId) ::
      k in cleared.entries && after.entries[k] == cleared.entries[k]
    requires forall k | k in cleared.entries && k <= cleared.lastId :: k in after.entries && after.entries[k] == cleared.entries[k]
    requires forall k | before.lastId < k <= after.lastId ::
      k in after.entries && after.entries[k] == RegistrationOf(owner, spec.microserviceName, spec.schedules[k - before.lastId - 1])
    ensures Reregistered(before, after, recorded, owner, spec)
  {
  }

  /** A registration run on the cleared scheduler re-registers the definition. */
  lemma RegistrationReregisters(sched: Scheduler, sa: ScheduledAutoscaler, recorded: seq<int>, rejected: set<string>)
    ensures var reg := RegisterAll(RemoveAll(sched, recorded), sa.name, sa.spec.microserviceName, sa.spec.schedules, rejected);
      Reregistered(sched, reg.sched, recorded, sa.name, sa.spec)
  {
    var cleared := RemoveAll(sched, recorded);
    RemoveAllExactly(sched, recorded);
    var reg := RegisterAll(cleared, sa.name, sa.spec.microserviceName, sa.spec.schedules, rejected);
    NewIdsInOrder(sched, reg, sa);
    ReregisteredFrom(sched, cleared, reg.sched, recorded, sa.name, sa.spec);
  }

  /** The ids of that run are the ids right after the scheduler's last id, one per registered entry. */
  lemma RegistrationIds(sched: Scheduler, sa: ScheduledAutoscaler, recorded: seq<int>, rejected: set<string>)
    ensures var reg := RegisterAll(RemoveAll(sched, recorded), sa.name, sa.spec.microserviceName, sa.spec.schedules, rejected);
      reg.sched.lastId == sched.lastId + |reg.ids| && FreshRun(reg.ids, sched.lastId)
  {
    var reg := RegisterAll(RemoveAll(sched, recorded), sa.name, sa.spec.microserviceName, sa.spec.schedules, rejected);
    assert RemoveAll(sched, recorded).lastId == sched.lastId;
  }

  /** That run stops exactly when some entry is rejected, and then at the first rejected entry. */
  lemma RegistrationRejects(sched: Scheduler, sa: ScheduledAutoscaler, recorded: seq<int>, rejected: set<string>)
    ensures var reg := RegisterAll(RemoveAll(sched, recorded), sa.name, sa.spec.microserviceName, sa.spec.schedules, rejected);
      && (reg.rejectedExpr.Some? <==> HasRejected(sa.spec, rejected))
      && (reg.rejectedExpr.Some? ==>
            FirstRejected(sa.spec, rejected, |reg.ids|) && reg.rejectedExpr.value == sa.spec.schedules[|reg.ids|].cron)
  {
    var reg := RegisterAll(RemoveAll(sched, recorded), sa.name, sa.spec.microserviceName, sa.spec.schedules, rejected);
    if reg.rejectedExpr.Some? {
      assert sa.spec.schedules[|reg.ids|].cron in rejected;
    }
  }

  /** The ids of a registration run are the scheduler ids right after its last id, in entry order. */
  lemma NewIdsInOrder(sched: Scheduler, reg: Registered, sa: ScheduledAutoscaler)
    requires |reg.ids| <= |sa.spec.schedules| && reg.sched.lastId == sched.lastId + |reg.ids|
    requires forall i | 0 <= i < |reg.ids| ::
      && reg.ids[i] == sched.lastId + 1 + i
      && reg.ids[i] in reg.sched.entries
      && reg.sched.entries[reg.ids[i]] == RegistrationOf(sa.name, sa.spec.microserviceName, sa.spec.schedules[i])
    ensures forall k | sched.lastId < k <= reg.sched.lastId ::
      k in reg.sched.entries
      && reg.sched.entries[k] == RegistrationOf(sa.name, sa.spec.microserviceName, sa.spec.schedules[k - sched.lastId - 1])
  {
    forall k | sched.lastId < k <= reg.sched.lastId
      ensures k in reg.sched.entries
      ensures reg.sched.entries[k] == RegistrationOf(sa.name, sa.spec.microserviceName, sa.spec.schedules[k - sched.lastId - 1])
    {
      assert reg.ids[k - sched.lastId - 1] == k;
    }
  }

  /**
   * The scheduler side of a normal pass: remove every id recorded in the status as read,
   * then register one firing per entry in order until the first rejected entry.
   */
  method Reregister(sched: Scheduler, sa: ScheduledAutoscaler, rejected: set<string>) returns (reg: Registered)
    ensures Reregistered(sched, reg.sched, sa.status.scheduledCrons, sa.name, sa.spec)
    ensures reg.sched.lastId == sched.lastId + |reg.ids| && FreshRun(reg.ids, sched.lastId)
    ensures reg.rejectedExpr.Some? <==> HasRejected(sa.spec, rejected)
    ensures reg.rejectedExpr.Some? ==>
      FirstRejected(sa.spec, rejected, |reg.ids|) && reg.rejectedExpr.value == sa.spec.schedules[|reg.ids|].cron
    ensures reg.rejectedExpr.None? ==> |reg.ids| == |sa.spec.schedules|
  {
    var cleared := RemoveAll(sched, sa.status.scheduledCrons);
    reg := RegisterAll(cleared, sa.name, sa.spec.microserviceName, sa.spec.schedules, rejected);
    RegistrationReregisters(sched, sa, sa.status.scheduledCrons, rejected);
    RegistrationIds(sched, sa, sa.status.scheduledCrons, rejected);
    RegistrationRejects(sched, sa, sa.status.scheduledCrons, rejected);
  }

  /**
   * What a registering pass promises about the scheduler and the stored status, for the
   * definition `sa` whose status read `s0`, with the scheduler `sched` before and the
   * outcome `r`. A rejected entry stops the pass at the first rejected entry, whose
   * expression the returned error names.
   */
  predicate RegisteredAs(sched: Scheduler, sa: ScheduledAutoscaler, rejected: set<string>, o: Oracle, key: Key, r: SaOutcome)
  {
    && Reregistered(sched, r.sched, sa.status.scheduledCrons, sa.name, sa.spec)
    && (r.stage == RegisterFailed <==> HasRejected(sa.spec, rejected))
    && (r.stage == RegisterFailed ==>
          && FirstRejected(sa.spec, rejected, r.sched.lastId - sched.lastId)
          && r.err == Some(CronRejected(sa.spec.schedules[r.sched.lastId - sched.lastId].cron)))
    && (r.stage != RegisterFailed ==> r.sched.lastId == sched.lastId + |sa.spec.schedules|)
    && RecordedAs(r.stage, o, r.w, key, sa.status, sched.lastId, |sa.spec.schedules|, r.err)
  }

  /**
   * The part of a normal pass after the mark: remove every id recorded in the status as
   * read, register one firing per entry in order, and record the outcome. The store holds
   * that status with the Reconciling state.
   */
  method Register(w: World, o: Oracle, sched: Scheduler, key: Key, sa: ScheduledAutoscaler, rejected: set<string>)
    returns (r: SaOutcome)
    requires StoredSaStatus(w.store, key) == Some(sa.status.(state := Reconciling))
    ensures Registering(r.stage)
    ensures r.err.None? <==> r.stage == Scheduled
    ensures w.trace <= r.w.trace
    ensures r.stage == RegisterFailed ==> |r.w.trace| <= |w.trace| + 1
    ensures StatusOnly(w.store, r.w.store, key)
    ensures RegisteredAs(sched, sa, rejected, o, key, r)
  {
    var s0 := sa.status;
    var reg := Reregister(sched, sa, rejected);
    if reg.rejectedExpr.Some? {
      var e := CronRejected(reg.rejectedExpr.value);
      var l := SaLogError(w, o, key, s0.(state := Reconciling), s0, e);
      return SaOutcome(l.w, reg.sched, RegisterFailed, Some(e));
    }
    var rec := Record(w, o, key, s0, reg.ids, sched.lastId);
    return SaOutcome(rec.w, reg.sched, rec.stage, rec.err);
  }

  function SaKey(name: string): Key
  {
    Key(ScheduledAutoscalerKind, name)
  }

  /** What the store holds under the definition's key, if anything, is that definition. */
  predicate HoldsDefinition(s: Store, name: string)
  {
    SaKey(name) in s ==> s[SaKey(name)].ScheduledAutoscalerObj? && s[SaKey(name)].sa.name == name
  }

  /**
   * The branch for a definition under deletion. With the finalizer, every recorded id is
   * removed from the scheduler and the definition is written back without the finalizer;
   * without it, nothing happens. Nothing is registered either way.
   */
  function Finalize(w: World, o: Oracle, sched: Scheduler, sa: ScheduledAutoscaler): (r: SaOutcome)
    ensures r.stage == Released || r.stage == Finalized || r.stage == FinalizeFailed
    ensures r.stage == Released <==> Finalizer !in sa.finalizers
    ensures r.stage == Released ==> r == SaOutcome(w, sched, Released, None)
    ensures r.stage != Released ==>
      && r.w.trace == w.trace + [UpdateCall(SaKey(sa.name))]
      && (forall id | id in sa.status.scheduledCrons :: id !in r.sched.entries)
      && (forall k | k in sched.entries && k !in sa.status.scheduledCrons :: k in r.sched.entries)
      && (r.err.None? <==> r.stage == Finalized)
    ensures r.stage == Finalized <==> Finalizer in sa.finalizers && !Faults(o, w) && SaKey(sa.name) in w.store
    ensures r.stage == Finalized ==>
      r.w.store == w.store[SaKey(sa.name) := ScheduledAutoscalerObj(sa.(finalizers := RemoveFinalizer(sa.finalizers)))]
    ensures r.stage == FinalizeFailed ==>
      && r.w.store == w.store
      && (Faults(o, w) ==> r.err == Some(FaultAt(o, |w.trace|)))
      && (!Faults(o, w) ==> r.err == Some(NotFound(SaKey(sa.name))))
    ensures forall k | k in r.sched.entries :: k in sched.entries && r.sched.entries[k] == sched.entries[k]
    ensures r.sched.lastId == sched.lastId
  {
    if Finalizer !in sa.finalizers then SaOutcome(w, sched, Released, None)
    else
      var cleared := RemoveAll(sched, sa.status.scheduledCrons);
      RemoveAllExactly(sched, sa.status.scheduledCrons);
      var u := Update(w, o, ScheduledAutoscalerObj(sa.(finalizers := RemoveFinalizer(sa.finalizers))));
      SaOutcome(u.w, cleared, if u.err.Some? then FinalizeFailed else Finalized, u.err)
  }

  /** A finalized definition is stored without the finalizer and with nothing else changed. */
  lemma FinalizedDropsFinalizer(w: World, o: Oracle, sched: Scheduler, sa: ScheduledAutoscaler)
    requires SaKey(sa.name) in w.store
    requires Finalize(w, o, sched, sa).stage == Finalized
    ensures var s := Finalize(w, o, sched, sa).w.store;
      && SaKey(sa.name) in s && s[SaKey(sa.name)].ScheduledAutoscalerObj?
      && Finalizer !in s[SaKey(sa.name)].sa.finalizers
      && s[SaKey(sa.name)].sa.status == sa.status && s[SaKey(sa.name)].sa.spec == sa.spec
      && forall k | k in w.store && k != SaKey(sa.name) :: k in s && s[k] == w.store[k]
  {
  }

  /**
   * A normal pass after the finalizer is in place: mark Reconciling unless already so,
   * then register. `marked` is the world registration starts from: the store as read with
   * the Reconciling state written.
   */
  method MarkAndRegister(w: World, o: Oracle, sched: Scheduler, sa: ScheduledAutoscaler, rejected: set<string>)
    returns (r: SaOutcome, ghost marked: World)
    requires StoredSaStatus(w.store, SaKey(sa.name)) == Some(sa.status)
    ensures r.stage == SaMarkFailed || Registering(r.stage)
    ensures r.err.None? <==> r.stage == Scheduled
    ensures w.trace <= r.w.trace
    ensures sa.status.state != Reconciling ==> w.trace + [StatusCall(SaKey(sa.name))] <= r.w.trace
    ensures StatusOnly(w.store, r.w.store, SaKey(sa.name))
    ensures r.stage == SaMarkFailed ==>
      && sa.status.state != Reconciling && Faults(o, w)
      && r.w.trace == w.trace + [StatusCall(SaKey(sa.name))] && r.w.store == w.store && r.sched == sched
      && r.err == Some(StatusWriteFailed(ScheduledAutoscalerKind, FaultAt(o, |w.trace|)))
      && MarkFailedLast(o, r.w, r.err)
    ensures Registering(r.stage) ==>
      && marked.trace == (if sa.status.state != Reconciling then w.trace + [StatusCall(SaKey(sa.name))] else w.trace)
      && StatusOnly(w.store, marked.store, SaKey(sa.name))
      && StoredSaStatus(marked.store, SaKey(sa.name)) == Some(sa.status.(state := Reconciling))
      && marked.trace <= r.w.trace
      && RegisteredAs(sched, sa, rejected, o, SaKey(sa.name), r)
  {
    var key := SaKey(sa.name);
    var s0 := sa.status;
    if s0.state != Reconciling {
      var u := UpdateSaStatus(w, o, key, s0, s0.(state := Reconciling));
      if u.err.Some? {
        return SaOutcome(u.w, sched, SaMarkFailed, u.err), u.w;
      }
      marked := u.w;
      r := Register(u.w, o, sched, key, sa, rejected);
      StatusOnlyTrans(w.store, u.w.store, r.w.store, key);
    } else {
      marked := w;
      r := Register(w, o, sched, key, sa, rejected);
    }
  }

  /** Every object of `before` other than the one at `key` is still in `after`, unchanged. */
  predicate OthersKept(before: Store, after: Store, key: Key)
  {
    forall k | k in before && k != key :: k in after && after[k] == before[k]
  }

  /**
   * A normal pass once the definition `sa` is read and not under deletion: persist the
   * finalizer first when it is missing (a failure ends the pass before anything is
   * registered), then mark and register. Once admitted, the stored definition is the one
   * read with the finalizer in place, and only its status changes afterwards.
   */
  method Admit(w: World, o: Oracle, sched: Scheduler, sa: ScheduledAutoscaler, rejected: set<string>)
    returns (r: SaOutcome, ghost marked: World)
    requires SaKey(sa.name) in w.store && w.store[SaKey(sa.name)] == ScheduledAutoscalerObj(sa)
    ensures r.stage == FinalizerAddFailed || r.stage == SaMarkFailed || Registering(r.stage)
    ensures r.err.None? <==> r.stage == Scheduled
    ensures w.trace <= r.w.trace
    ensures Finalizer !in sa.finalizers ==> w.trace + [UpdateCall(SaKey(sa.name))] <= r.w.trace
    ensures r.stage == FinalizerAddFailed ==>
      && Finalizer !in sa.finalizers && Faults(o, w)
      && r.w.trace == w.trace + [UpdateCall(SaKey(sa.name))] && r.w.store == w.store && r.sched == sched
      && r.err == Some(FaultAt(o, |w.trace|))
    ensures r.stage == SaMarkFailed || Registering(r.stage) ==>
      && SaKey(sa.name) in r.w.store
      && SameButStatus(ScheduledAutoscalerObj(sa.(finalizers := AddFinalizer(sa.finalizers))), r.w.store[SaKey(sa.name)])
      && OthersKept(w.store, r.w.store, SaKey(sa.name))
    ensures r.stage == SaMarkFailed ==>
      && r.sched == sched && MarkFailedLast(o, r.w, r.err)
    ensures Registering(r.stage) ==>
      && StoredSaStatus(marked.store, SaKey(sa.name)) == Some(sa.status.(state := Reconciling))
      && marked.trace <= r.w.trace
      && RegisteredAs(sched, sa, rejected, o, SaKey(sa.name), r)
  {
    var key := SaKey(sa.name);
    if Finalizer in sa.finalizers {
      r, marked := MarkAndRegister(w, o, sched, sa, rejected);
      return;
    }
    var sa1 := sa.(finalizers := AddFinalizer(sa.finalizers));
    var u := Update(w, o, ScheduledAutoscalerObj(sa1));
    if u.err.Some? {
      return SaOutcome(u.w, sched, FinalizerAddFailed, u.err), u.w;
    }
    assert u.w.store == w.store[key := ScheduledAutoscalerObj(sa1)];
    r, marked := MarkAndRegister(u.w, o, sched, sa, rejected);
  }

  /** `err` is the wrapped store failure of the status write issued as the last call of `w`. */
  predicate MarkFailedLast(o: Oracle, w: World, err: Option<Error>)
  {
    && |w.trace| > 0 && |w.trace| - 1 in o.faults
    && err == Some(StatusWriteFailed(ScheduledAutoscalerKind, FaultAt(o, |w.trace| - 1)))
  }

  /**
   * The pass for a definition under deletion, once it is read from the store of `w`:
   * `Finalize` run on the world after the read, stated in terms of the store before it.
   */
  method Retire(w: World, o: Oracle, sched: Scheduler, name: string) returns (r: SaOutcome)
    requires !Faults(o, w) && SaKey(name) in w.store && HoldsDefinition(w.store, name)
    ensures r == Finalize(Issue(w, GetCall(SaKey(name))), o, sched, w.store[SaKey(name)].sa)
    ensures w.trace + [GetCall(SaKey(name))] <= r.w.trace
    ensures r.stage == Released || r.stage == Finalized || r.stage == FinalizeFailed
    ensures r.err.None? <==> r.stage == Released || r.stage == Finalized
    ensures forall k | k in r.sched.entries :: k in sched.entries && r.sched.entries[k] == sched.entries[k]
    ensures r.stage == Released <==> Finalizer !in w.store[SaKey(name)].sa.finalizers
    ensures r.stage == Released ==> r.w == Issue(w, GetCall(SaKey(name))) && r.sched == sched
    ensures r.stage != Released ==> forall id | id in w.store[SaKey(name)].sa.status.scheduledCrons :: id !in r.sched.entries
    ensures r.stage == Finalized ==>
      var sa := w.store[SaKey(name)].sa;
      r.w.store == w.store[SaKey(name) := ScheduledAutoscalerObj(sa.(finalizers := RemoveFinalizer(sa.finalizers)))]
    ensures r.stage == FinalizeFailed ==>
      r.w.store == w.store && |w.trace| + 1 in o.faults && r.err == Some(FaultAt(o, |w.trace| + 1))
  {
    r := Finalize(Issue(w, GetCall(SaKey(name))), o, sched, w.store[SaKey(name)].sa);
  }

  /**
   * The pass for a definition not under deletion, once it is read from the store of `w`:
   * `Admit` run on the world after the read, stated in terms of the store before it.
   */
  method Enter(w: World, o: Oracle, sched: Scheduler, name: string, rejected: set<string>)
    returns (r: SaOutcome, ghost marked: World)
    requires !Faults(o, w) && SaKey(name) in w.store && HoldsDefinition(w.store, name)
    requires !w.store[SaKey(name)].sa.deleting
    ensures r.stage == FinalizerAddFailed || r.stage == SaMarkFailed || Registering(r.stage)
    ensures r.err.None? <==> r.stage == Scheduled
    ensures w.trace + [GetCall(SaKey(name))] <= r.w.trace
    ensures r.stage == FinalizerAddFailed ==>
      && Finalizer !in w.store[SaKey(name)].sa.finalizers
      && r.w.trace == w.trace + [GetCall(SaKey(name)), UpdateCall(SaKey(name))]
      && r.w.store == w.store && r.sched == sched
      && |w.trace| + 1 in o.faults && r.err == Some(FaultAt(o, |w.trace| + 1))
    ensures r.stage == SaMarkFailed ==>
      && r.sched == sched && MarkFailedLast(o, r.w, r.err)
    ensures r.stage == SaMarkFailed || Registering(r.stage) ==>
      && (Finalizer !in w.store[SaKey(name)].sa.finalizers ==>
            w.trace + [GetCall(SaKey(name)), UpdateCall(SaKey(name))] <= r.w.trace)
      && var sa := w.store[SaKey(name)].sa;
      && SaKey(name) in r.w.store
      && SameButStatus(ScheduledAutoscalerObj(sa.(finalizers := AddFinalizer(sa.finalizers))), r.w.store[SaKey(name)])
      && OthersKept(w.store, r.w.store, SaKey(name))
    ensures Registering(r.stage) ==>
      var sa := w.store[SaKey(name)].sa;
      && StoredSaStatus(marked.store, SaKey(name)) == Some(sa.status.(state := Reconciling))
      && marked.trace <= r.w.trace
      && RegisteredAs(sched, sa, rejected, o, SaKey(name), r)
  {
    var key := SaKey(name);
    var read := Issue(w, GetCall(key));
    r, marked := Admit(read, o, sched, w.store[key].sa, rejected);
    assert read.trace + [UpdateCall(key)] == w.trace + [GetCall(key), UpdateCall(key)];
  }

  /**
   * One pass of the supervisor for the definition called `name`, with the scheduler
   * `sched` and the set of expressions the scheduler rejects. A missing definition ends
   * the pass successfully, a failing read with its error, both with the scheduler as it
   * was. A definition under deletion is finalized; any other is admitted.
   */
  method Reconcile(w: World, o: Oracle, sched: Scheduler, name: string, rejected: set<string>)
    returns (r: SaOutcome, ghost marked: World)
    requires HoldsDefinition(w.store, name)
    ensures w.trace + [GetCall(SaKey(name))] <= r.w.trace
    ensures r.stage == SaGone <==> !Faults(o, w) && SaKey(name) !in w.store
    ensures r.stage == SaReadFailed <==> Faults(o, w)
    ensures r.stage == SaGone || r.stage == SaReadFailed ==>
      r.w == Issue(w, GetCall(SaKey(name))) && r.sched == sched && (r.err.None? <==> r.stage == SaGone)
    ensures r.stage == Released || r.stage == Finalized || r.stage == FinalizeFailed <==>
      !Faults(o, w) && SaKey(name) in w.store && w.store[SaKey(name)].sa.deleting
    ensures r.stage == Released || r.stage == Finalized || r.stage == FinalizeFailed ==>
      && (forall k | k in r.sched.entries :: k in sched.entries && r.sched.entries[k] == sched.entries[k])
      && (r.stage == Released <==> Finalizer !in w.store[SaKey(name)].sa.finalizers)
      && (r.stage == Released ==> r.w == Issue(w, GetCall(SaKey(name))) && r.sched == sched)
      && (r.stage != Released ==> forall id | id in w.store[SaKey(name)].sa.status.scheduledCrons :: id !in r.sched.entries)
    ensures r.stage == Released || r.stage == Finalized || r.stage == FinalizeFailed ==>
      && SaKey(name) in w.store
      && r == Finalize(Issue(w, GetCall(SaKey(name))), o, sched, w.store[SaKey(name)].sa)
    ensures r.stage == Finalized ==>
      && SaKey(name) in w.store
      && var sa := w.store[SaKey(name)].sa;
      r.w.store == w.store[SaKey(name) := ScheduledAutoscalerObj(sa.(finalizers := RemoveFinalizer(sa.finalizers)))]
    ensures r.stage == FinalizeFailed ==>
      r.w.store == w.store && |w.trace| + 1 in o.faults && r.err == Some(FaultAt(o, |w.trace| + 1))
    ensures r.stage == FinalizerAddFailed ==>
      && SaKey(name) in w.store && Finalizer !in w.store[SaKey(name)].sa.finalizers
      && r.w.trace == w.trace + [GetCall(SaKey(name)), UpdateCall(SaKey(name))]
      && r.w.store == w.store && r.sched == sched
      && |w.trace| + 1 in o.faults && r.err == Some(FaultAt(o, |w.trace| + 1))
    ensures r.stage == SaMarkFailed ==>
      && r.sched == sched && MarkFailedLast(o, r.w, r.err)
    ensures r.stage == SaMarkFailed || Registering(r.stage) ==>
      && SaKey(name) in w.store && !w.store[SaKey(name)].sa.deleting
      && (Finalizer !in w.store[SaKey(name)].sa.finalizers ==>
            w.trace + [GetCall(SaKey(name)), UpdateCall(SaKey(name))] <= r.w.trace)
      && var sa := w.store[SaKey(name)].sa;
      && SaKey(name) in r.w.store
      && SameButStatus(ScheduledAutoscalerObj(sa.(finalizers := AddFinalizer(sa.finalizers))), r.w.store[SaKey(name)])
      && OthersKept(w.store, r.w.store, SaKey(name))
    ensures Registering(r.stage) ==>
      var sa := w.store[SaKey(name)].sa;
      && StoredSaStatus(marked.store, SaKey(name)) == Some(sa.status.(state := Reconciling))
      && marked.trace <= r.w.trace
      && RegisteredAs(sched, sa, rejected, o, SaKey(name), r)
    ensures r.err.None? <==> r.stage == SaGone || r.stage == Released || r.stage == Finalized || r.stage == Scheduled
  {
    var key := SaKey(name);
    var g := Get(w, o, key);
    if Faults(o, w) {
      return SaOutcome(g.w, sched, SaReadFailed, g.err), g.w;
    }
    if key !in w.store {
      return SaOutcome(g.w, sched, SaGone, None), g.w;
    }
    var sa := w.store[key].sa;
    if sa.deleting {
      r := Retire(w, o, sched, name);
      return r, r.w;
    }
    r, marked := Enter(w, o, sched, name, rejected);
  }
}
