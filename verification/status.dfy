/**
 * The status helpers a workload reconciler uses. The reconciler holds the fetched object
 * in memory; `mem` is that copy's status. A write first assigns the new status to the
 * in-memory copy and then writes it, so a failed write still changes `mem`.
 */
module StatusMachine {
  import opened Common
  import opened Api
  import opened Cluster

  /** The world after a status helper, the in-memory status, and the error it returns. */
  datatype StatusWrite = StatusWrite(w: World, mem: Status, err: Option<Error>)

  /** The store changed at most in the status of the object under `key`. */
  predicate StatusOnly(a: Store, b: Store, key: Key)
  {
    && b.Keys == a.Keys
    && (forall k | k in a && k != key :: b[k] == a[k])
    && (key in a ==> KeyOf(b[key]) == KeyOf(a[key]) && SameButStatus(a[key], b[key]))
  }

  /** Two status-only changes of the same object make one. */
  lemma StatusOnlyTrans(a: Store, b: Store, c: Store, key: Key)
    requires StatusOnly(a, b, key) && StatusOnly(b, c, key)
    ensures StatusOnly(a, c, key)
  {
  }

  /**
   * Writes `next` unless the in-memory status already equals it. A failed write is
   * reported as a status-write failure of the object's kind.
   */
  function UpdateStatus(w: World, o: Oracle, key: Key, mem: Status, next: Status): (r: StatusWrite)
    ensures r.mem == next
    ensures mem == next ==> r.w == w && r.err.None?
    ensures mem != next ==> r.w.trace == w.trace + [StatusCall(key)]
    ensures mem != next && !Faults(o, w) && StoredStatus(w.store, key).Some? ==>
      r.err.None? && StoredStatus(r.w.store, key) == Some(next)
    ensures mem != next && Faults(o, w) ==>
      r.err == Some(StatusWriteFailed(key.kind, FaultAt(o, |w.trace|))) && r.w.store == w.store
    ensures mem != next && !Faults(o, w) && StoredStatus(w.store, key).None? ==>
      r.err == Some(StatusWriteFailed(key.kind, NotFound(key))) && r.w.store == w.store
    ensures StatusOnly(w.store, r.w.store, key)
  {
    if mem == next then StatusWrite(w, mem, None)
    else
      var s := WriteStatus(w, o, key, next);
      StatusWrite(s.w, next, if s.err.Some? then Some(StatusWriteFailed(key.kind, s.err.value)) else None)
  }

  /** Sets the state to Reconciling; the error text of `s` is kept. */
  function UpdateStatusReconciling(w: World, o: Oracle, key: Key, mem: Status, s: Status): (r: StatusWrite)
    ensures r.mem == Status(Reconciling, s.error)
    ensures StatusOnly(w.store, r.w.store, key)
    ensures mem == r.mem ==> r.w == w && r.err.None?
    ensures mem != r.mem ==>
      && r.w.trace == w.trace + [StatusCall(key)]
      && (r.err.None? <==> !Faults(o, w) && StoredStatus(w.store, key).Some?)
    ensures mem != r.mem && Faults(o, w) ==> r.err == Some(StatusWriteFailed(key.kind, FaultAt(o, |w.trace|)))
    ensures r.err.Some? ==> r.w.store == w.store
    ensures r.err.None? && StoredStatus(w.store, key).Some? && mem != r.mem ==>
      StoredStatus(r.w.store, key) == Some(Status(Reconciling, s.error))
  {
    UpdateStatus(w, o, key, mem, s.(state := Reconciling))
  }

  /**
   * Records `statusErr` (when present) as the error text, sets Reconciling, and swallows
   * any failure of that write: the result never carries an error.
   */
  function UpdateStatusReconcilingAndLogError(w: World, o: Oracle, key: Key, mem: Status, s: Status, statusErr: Option<Error>)
    : (r: StatusWrite)
    ensures r.err.None?
    ensures statusErr.Some? ==> r.mem == Status(Reconciling, Message(statusErr.value))
    ensures statusErr.None? ==> r.mem == Status(Reconciling, s.error)
    ensures mem == r.mem ==> r.w == w
    ensures mem != r.mem ==> r.w.trace == w.trace + [StatusCall(key)]
    ensures StatusOnly(w.store, r.w.store, key)
    ensures StoredStatus(w.store, key) == Some(mem) ==>
      StoredStatus(r.w.store, key) == Some(r.mem) || (Faults(o, w) && r.w.store == w.store)
  {
    var withError := if statusErr.Some? then s.(error := Message(statusErr.value)) else s;
    var u := UpdateStatusReconciling(w, o, key, mem, withError);
    StatusWrite(u.w, u.mem, None)
  }

  /**
   * What the error logger leaves behind in `w`: the status `next` it was asked to write,
   * or, when the last call issued (its write) failed, the status `kept` stored before.
   */
  predicate LoggedAs(o: Oracle, w: World, key: Key, next: Status, kept: Status)
  {
    || StoredStatus(w.store, key) == Some(next)
    || (|w.trace| > 0 && |w.trace| - 1 in o.faults && StoredStatus(w.store, key) == Some(kept))
  }

  /** Once a status is written, writing the same status again issues no call. */
  lemma UpdateStatusSettles(w: World, o: Oracle, key: Key, mem: Status, next: Status)
    ensures var r := UpdateStatus(w, o, key, mem, next);
      UpdateStatus(r.w, o, key, r.mem, next) == StatusWrite(r.w, next, None)
  {
  }

  /**
   * With a working store and the object present, the helper leaves exactly the error's
   * text and the Reconciling state in the stored status, whatever the in-memory copy held
   * before, unless the stored status already read so.
   */
  lemma LogErrorRecordsMessage(w: World, o: Oracle, key: Key, mem: Status, s: Status, e: Error)
    requires !Faults(o, w) && StoredStatus(w.store, key).Some?
    requires StoredStatus(w.store, key) == Some(mem)
    ensures StoredStatus(UpdateStatusReconcilingAndLogError(w, o, key, mem, s, Some(e)).w.store, key)
         == Some(Status(Reconciling, Message(e)))
  {
  }
}
