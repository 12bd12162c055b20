/**
 * The in-process scheduler the schedule supervisor registers its firings with. A
 * registration is kept under an integer id; ids are handed out in increasing order, one
 * per accepted registration. Expression parsing and timing are not modelled: the set of
 * expressions the scheduler rejects is a parameter.
 */
module Cron {
  import opened Common
  import opened Api

  /**
   * What a registered firing will do: scale the workload `target` to the bounds of
   * `schedule`. The entry is captured by value when it is registered.
   */
  datatype Registration = Registration(owner: string, target: string, schedule: Schedule)

  /** The registrations by id, and the last id handed out. */
  datatype Scheduler = Scheduler(entries: map<int, Registration>, lastId: nat)

  /** Every registered id was handed out by this scheduler. */
  predicate Issued(s: Scheduler)
  {
    forall id | id in s.entries :: 0 < id <= s.lastId
  }

  /** Removes the registration under `id`; an unknown id is ignored. */
  function Remove(s: Scheduler, id: int): (r: Scheduler)
    ensures id !in r.entries && r.lastId == s.lastId
    ensures forall k | k in r.entries :: k in s.entries && r.entries[k] == s.entries[k]
    ensures forall k | k in s.entries && k != id :: k in r.entries
  {
    Scheduler(s.entries - {id}, s.lastId)
  }

  /** Removing an id that is not registered changes nothing. */
  lemma RemoveUnknown(s: Scheduler, id: int)
    requires id !in s.entries
    ensures Remove(s, id) == s
  {
  }

  /** Removes every id of `ids`, in order. */
  function RemoveAll(s: Scheduler, ids: seq<int>): (r: Scheduler)
    ensures r.lastId == s.lastId
    ensures forall k | k in r.entries :: k in s.entries && r.entries[k] == s.entries[k]
    decreases |ids|
  {
    if |ids| == 0 then s else RemoveAll(Remove(s, ids[0]), ids[1..])
  }

  /** After removing `ids`, none of them is registered, and every other entry is kept. */
  lemma {:induction false} RemoveAllExactly(s: Scheduler, ids: seq<int>)
    ensures forall id | id in ids :: id !in RemoveAll(s, ids).entries
    ensures forall k | k in s.entries && k !in ids :: k in RemoveAll(s, ids).entries
    decreases |ids|
  {
    if |ids| > 0 {
      RemoveAllExactly(Remove(s, ids[0]), ids[1..]);
      forall id | id in ids ensures id !in RemoveAll(s, ids).entries {
        if id != ids[0] {
          assert id in ids[1..];
        }
      }
    }
  }

  datatype Added = Added(sched: Scheduler, id: int, rejected: bool)

  /**
   * Registers one firing. A rejected expression leaves the scheduler as it was and yields
   * id 0; otherwise the next id is handed out.
   */
  function AddFunc(s: Scheduler, expr: string, reg: Registration, rejected: set<string>): (r: Added)
    ensures r.rejected <==> expr in rejected
    ensures r.rejected ==> r.sched == s && r.id == 0
    ensures !r.rejected ==>
      && r.id == s.lastId + 1 && r.sched.lastId == r.id
      && r.id in r.sched.entries && r.sched.entries[r.id] == reg
      && forall k | k in r.sched.entries && k != r.id :: k in s.entries && r.sched.entries[k] == s.entries[k]
  {
    if expr in rejected then Added(s, 0, true)
    else Added(Scheduler(s.entries[s.lastId + 1 := reg], s.lastId + 1), s.lastId + 1, false)
  }

  /** An accepted registration never reuses an id in use, and keeps every id issued. */
  lemma AddFuncFresh(s: Scheduler, expr: string, reg: Registration, rejected: set<string>)
    requires Issued(s) && expr !in rejected
    ensures AddFunc(s, expr, reg, rejected).id !in s.entries
    ensures Issued(AddFunc(s, expr, reg, rejected).sched)
    ensures forall k | k in s.entries :: k in AddFunc(s, expr, reg, rejected).sched.entries
  {
  }

  /** The scheduler after registering some entries, their ids in entry order, and the rejected expression if any. */
  datatype Registered = Registered(sched: Scheduler, ids: seq<int>, rejectedExpr: Option<string>)

  /** The registration of one entry of the definition `owner` for the workload `target`. */
  function RegistrationOf(owner: string, target: string, sch: Schedule): Registration
  {
    Registration(owner, target, sch)
  }

  /**
   * Registers one firing per entry, in order; the first rejected expression stops the
   * loop, and the entries registered before it stay registered.
   */
  function RegisterAll(s: Scheduler, owner: string, target: string, schedules: seq<Schedule>, rejected: set<string>)
    : (r: Registered)
    ensures |r.ids| <= |schedules|
    ensures r.sched.lastId == s.lastId + |r.ids|
    ensures forall i | 0 <= i < |r.ids| ::
      && r.ids[i] == s.lastId + 1 + i
      && r.ids[i] in r.sched.entries
      && r.sched.entries[r.ids[i]] == RegistrationOf(owner, target, schedules[i])
      && schedules[i].cron !in rejected
    ensures r.rejectedExpr.None? ==> |r.ids| == |schedules|
    ensures r.rejectedExpr.Some? ==>
      |r.ids| < |schedules| && r.rejectedExpr.value == schedules[|r.ids|].cron && r.rejectedExpr.value in rejected
    ensures forall k | k in r.sched.entries && !(s.lastId < k <= r.sched.lastId) ::
      k in s.entries && r.sched.entries[k] == s.entries[k]
    ensures forall k | k in s.entries && k <= s.lastId :: k in r.sched.entries && r.sched.entries[k] == s.entries[k]
    decreases |schedules|
  {
    if |schedules| == 0 then Registered(s, [], None)
    else
      var a := AddFunc(s, schedules[0].cron, RegistrationOf(owner, target, schedules[0]), rejected);
      if a.rejected then Registered(s, [], Some(schedules[0].cron))
      else
        var rest := RegisterAll(a.sched, owner, target, schedules[1..], rejected);
        var ids := [a.id] + rest.ids;
        assert forall i | 0 < i < |ids| :: ids[i] == rest.ids[i - 1] && schedules[i] == schedules[1..][i - 1];
        Registered(rest.sched, ids, rest.rejectedExpr)
  }

  /** Registration keeps every earlier entry when the scheduler's ids were all issued by it. */
  lemma RegisterAllKeeps(s: Scheduler, owner: string, target: string, schedules: seq<Schedule>, rejected: set<string>)
    requires Issued(s)
    ensures var r := RegisterAll(s, owner, target, schedules, rejected);
      && Issued(r.sched)
      && forall k | k in s.entries :: k in r.sched.entries && r.sched.entries[k] == s.entries[k]
  {
  }
}
