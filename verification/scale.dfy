/**
 * What a registered firing does when its time comes: overwrite the bounds of the target
 * workload's autoscaler with the entry's bounds, then mark the workload with the override
 * annotation so that its reconciler leaves the autoscaler alone. A failing step ends the
 * firing; nothing done before it is undone.
 */
module ScaleCallback {
  import opened Common
  import opened Api
  import opened Objects
  import opened Cluster
  import opened Cron
  import AutoscalingCheck
  import AutoscalingGen

  /** Where a firing ended. */
  datatype Firing =
    | HpaFetchFailed        // reading the autoscaler failed (or it is missing)
    | HpaUpdateFailed       // writing the new bounds failed
    | WorkloadFetchFailed   // the bounds were written; reading the workload failed
    | NilAnnotations        // the workload has no annotation map: the write into it panics
    | WorkloadUpdateFailed  // writing the marked workload failed
    | Scaled                // bounds written and workload marked

  datatype Fired = Fired(w: World, outcome: Firing)

  function TargetHpa(target: string): Key
  {
    Key(HpaKind, target)
  }

  function TargetWorkload(target: string): Key
  {
    Key(MicroserviceKind, target)
  }

  /** Whatever the store holds under the target's names is the autoscaler and the workload of that name. */
  predicate HoldsTargets(s: Store, target: string)
  {
    && (TargetHpa(target) in s ==> s[TargetHpa(target)].HpaObj? && s[TargetHpa(target)].hpa.meta.name == target)
    && (TargetWorkload(target) in s ==>
          s[TargetWorkload(target)].MicroserviceObj? && s[TargetWorkload(target)].ms.name == target)
  }

  /** The autoscaler with the entry's bounds: the maximum, and the minimum now always set. */
  function Rescaled(h: Hpa, sch: Schedule): (r: Hpa)
    ensures r.spec.maxReplicas == sch.maxReplicas && r.spec.minReplicas == Some(sch.minReplicas)
  {
    h.(spec := h.spec.(maxReplicas := sch.maxReplicas, minReplicas := Some(sch.minReplicas)))
  }

  /** Only the two bounds change; name, labels, target reference and metrics stay. */
  lemma RescaledKeepsTheRest(h: Hpa, sch: Schedule)
    ensures Rescaled(h, sch).meta == h.meta
    ensures Rescaled(h, sch).spec.scaleTarget == h.spec.scaleTarget
    ensures Rescaled(h, sch).spec.metrics == h.spec.metrics
  {
  }

  /** Two firings in a row leave the bounds of the later one: nothing of the earlier remains. */
  lemma LaterFiringWins(h: Hpa, a: Schedule, b: Schedule)
    ensures Rescaled(Rescaled(h, a), b) == Rescaled(h, b)
  {
  }

  /** The workload with the override annotation set to "true" in its (existing) annotation map. */
  function Marked(ms: Microservice): (r: Microservice)
    requires ms.annotations.Some?
    ensures r.annotations.Some? && AutoscalingCheck.Overridden(r)
    ensures forall k | k != OverrideAnnotation :: Lookup(r.annotations, k) == Lookup(ms.annotations, k)
    ensures r.name == ms.name && r.spec == ms.spec && r.status == ms.status
  {
    ms.(annotations := Some(ms.annotations.value[OverrideAnnotation := "true"]))
  }

  /** Every other annotation keeps its key and value. */
  lemma MarkedKeepsOtherAnnotations(ms: Microservice, k: string)
    requires ms.annotations.Some? && k != OverrideAnnotation
    ensures k in Marked(ms).annotations.value <==> k in ms.annotations.value
    ensures k in ms.annotations.value ==> Marked(ms).annotations.value[k] == ms.annotations.value[k]
  {
  }

  /** One firing of `reg`. */
  function Fire(w: World, o: Oracle, reg: Registration): (r: Fired)
    requires HoldsTargets(w.store, reg.target)
    ensures |r.w.trace| > |w.trace| && r.w.trace[..|w.trace| + 1] == w.trace + [GetCall(TargetHpa(reg.target))]
    ensures r.outcome == HpaFetchFailed <==> Faults(o, w) || TargetHpa(reg.target) !in w.store
    ensures r.outcome == HpaFetchFailed || r.outcome == HpaUpdateFailed ==> r.w.store == w.store
    ensures r.outcome != HpaFetchFailed && r.outcome != HpaUpdateFailed ==>
      TargetHpa(reg.target) in w.store
    ensures r.outcome == WorkloadFetchFailed || r.outcome == NilAnnotations || r.outcome == WorkloadUpdateFailed ==>
      r.w.store == Put(w.store, HpaObj(Rescaled(w.store[TargetHpa(reg.target)].hpa, reg.schedule)))
    ensures r.outcome == NilAnnotations ==>
      TargetWorkload(reg.target) in w.store && w.store[TargetWorkload(reg.target)].ms.annotations.None?
    ensures r.outcome == Scaled ==>
      && TargetWorkload(reg.target) in w.store && w.store[TargetWorkload(reg.target)].ms.annotations.Some?
      && r.w.store == Put(Put(w.store, HpaObj(Rescaled(w.store[TargetHpa(reg.target)].hpa, reg.schedule))),
                          MicroserviceObj(Marked(w.store[TargetWorkload(reg.target)].ms)))
  {
    var hk := TargetHpa(reg.target);
    var g := Get(w, o, hk);
    if g.err.Some? then Fired(g.w, HpaFetchFailed)
    else
      var h := Rescaled(g.obj.value.hpa, reg.schedule);
      var u := Update(g.w, o, HpaObj(h));
      if u.err.Some? then Fired(u.w, HpaUpdateFailed)
      else
        var m := Get(u.w, o, TargetWorkload(reg.target));
        if m.err.Some? then Fired(m.w, WorkloadFetchFailed)
        else if m.obj.value.ms.annotations.None? then Fired(m.w, NilAnnotations)
        else
          var u2 := Update(m.w, o, MicroserviceObj(Marked(m.obj.value.ms)));
          if u2.err.Some? then Fired(u2.w, WorkloadUpdateFailed)
          else Fired(u2.w, Scaled)
  }

  /** With a working store, a firing on a present autoscaler and an annotated workload always scales. */
  lemma QuietFiringScales(w: World, o: Oracle, reg: Registration)
    requires HoldsTargets(w.store, reg.target) && Quiet(o, |w.trace|, |w.trace| + 4)
    requires TargetHpa(reg.target) in w.store && TargetWorkload(reg.target) in w.store
    requires w.store[TargetWorkload(reg.target)].ms.annotations.Some?
    ensures Fire(w, o, reg).outcome == Scaled
  {
  }

  /**
   * After a firing scaled the workload, its reconciler's autoscaling step (with a policy
   * still set) issues no call and leaves the firing's bounds in place.
   */
  lemma ScaledBoundsSurviveCheck(w: World, o: Oracle, reg: Registration, o2: Oracle)
    requires HoldsTargets(w.store, reg.target)
    requires Fire(w, o, reg).outcome == Scaled
    requires w.store[TargetWorkload(reg.target)].ms.spec.autoscaling.Some?
    ensures var f := Fire(w, o, reg);
      var ms := f.w.store[TargetWorkload(reg.target)].ms;
      && AutoscalingCheck.CheckAutoscaling(f.w, o2, ms) == Step(f.w, None)
      && f.w.store[TargetHpa(reg.target)].hpa.spec.maxReplicas == reg.schedule.maxReplicas
      && f.w.store[TargetHpa(reg.target)].hpa.spec.minReplicas == Some(reg.schedule.minReplicas)
  {
  }

  /**
   * A firing that wrote the bounds but could not mark the workload is undone by the next
   * working autoscaling step: the generated autoscaler replaces the firing's bounds.
   */
  lemma UnmarkedBoundsAreOverwritten(w: World, o: Oracle, reg: Registration, o2: Oracle)
    requires HoldsTargets(w.store, reg.target)
    requires Fire(w, o, reg).outcome == NilAnnotations
    requires w.store[TargetWorkload(reg.target)].ms.spec.autoscaling.Some?
    requires Quiet(o2, |Fire(w, o, reg).w.trace|, |Fire(w, o, reg).w.trace| + 3)
    ensures var f := Fire(w, o, reg);
      var ms := f.w.store[TargetWorkload(reg.target)].ms;
      AutoscalingCheck.CheckAutoscaling(f.w, o2, ms).w.store[TargetHpa(reg.target)]
        == HpaObj(AutoscalingGen.GenerateAutoscaling(ms).value)
  {
    var f := Fire(w, o, reg);
    var ms := f.w.store[TargetWorkload(reg.target)].ms;
    assert ms == w.store[TargetWorkload(reg.target)].ms;
    assert ms.name == reg.target;
    AutoscalingCheck.OtherMarkerEnsures(f.w, o2, ms);
  }
}
