/**
 * The autoscaling step of a Microservice reconcile pass: no policy means delete the
 * autoscaler; the override marker means leave it alone; otherwise ensure the generated one.
 */
module AutoscalingCheck {
  import opened Common
  import opened Api
  import opened Objects
  import opened Cluster
  import AutoscalingGen

  function HpaKey(ms: Microservice): Key
  {
    Key(HpaKind, ms.name)
  }

  /** The workload carries the marker a schedule firing sets: exactly the text "true". */
  predicate Overridden(ms: Microservice)
  {
    Lookup(ms.annotations, OverrideAnnotation) == "true"
  }

  function CheckAutoscaling(w: World, o: Oracle, ms: Microservice): (r: Step)
    ensures ms.spec.autoscaling.None? ==> Deleted(w, o, HpaKey(ms), r)
    ensures ms.spec.autoscaling.Some? && Overridden(ms) ==> r == Step(w, None)
    ensures ms.spec.autoscaling.Some? && !Overridden(ms) ==>
      Ensured(w, o, HpaObj(AutoscalingGen.GenerateAutoscaling(ms).value), r)
  {
    if ms.spec.autoscaling.None? then Delete(w, o, HpaKey(ms))
    else if Overridden(ms) then Step(w, None)
    else
      var desired := HpaObj(AutoscalingGen.GenerateAutoscaling(ms).value);
      EnsureShape(w, o, desired);
      Ensure(w, o, desired)
  }

  /** The autoscaler the delete branch removes is the one the ensure branch writes. */
  lemma DeletedIsGenerated(ms: Microservice)
    requires ms.spec.autoscaling.Some?
    ensures KeyOf(HpaObj(AutoscalingGen.GenerateAutoscaling(ms).value)) == HpaKey(ms)
  {
  }

  /**
   * The policy test comes before the marker test: removing the policy deletes the
   * autoscaler even while the marker is set.
   */
  lemma RemovedPolicyBeatsMarker(w: World, o: Oracle, ms: Microservice)
    requires ms.spec.autoscaling.None? && Overridden(ms) && !Faults(o, w)
    ensures HpaKey(ms) !in CheckAutoscaling(w, o, ms).w.store
    ensures |CheckAutoscaling(w, o, ms).w.trace| == |w.trace| + 1
  {
  }

  /** Any marker value other than "true", or none at all, leads to a normal ensure. */
  lemma OtherMarkerEnsures(w: World, o: Oracle, ms: Microservice)
    requires ms.spec.autoscaling.Some? && Lookup(ms.annotations, OverrideAnnotation) != "true"
    requires Quiet(o, |w.trace|, |w.trace| + 3)
    ensures CheckAutoscaling(w, o, ms).w.store[HpaKey(ms)] == HpaObj(AutoscalingGen.GenerateAutoscaling(ms).value)
  {
  }
}
